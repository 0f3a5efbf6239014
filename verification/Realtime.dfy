/**
  The realtime path (processor/realtime.go over the store of processor/redis_state.go): a batch
  is filtered in offset order, applied in one pipeline, retried once, and then given up.
 */
module Realtime {
  import opened Events
  import opened Validation
  import opened Analytics
  import opened CurrentState
  import opened Naming

  /** All hashes of the state instance, by key. */
  type Hashes = map<string, Hash>

  function Get(store: Hashes, key: string): Hash {
    if key in store then store[key] else NO_HASH
  }

  function Apply(store: Hashes, x: StateEvent): Hashes {
    store[StateKeyForEvent(x.e) := Cas(Get(store, StateKeyForEvent(x.e)), x)]
  }

  function ApplyAll(store: Hashes, xs: seq<StateEvent>): Hashes {
    if xs == [] then store else Apply(ApplyAll(store, xs[..|xs| - 1]), xs[|xs| - 1])
  }

  /** The event is not older than what its key holds. */
  predicate LandsOn(store: Hashes, x: StateEvent) {
    Accepts(Get(store, StateKeyForEvent(x.e)).lastSeen, x.ts)
  }

  /** The script's answers for a batch: applied, or skipped as stale, in input order. */
  function Answers(store: Hashes, xs: seq<StateEvent>): seq<bool> {
    if xs == [] then []
    else Answers(store, xs[..|xs| - 1]) + [LandsOn(ApplyAll(store, xs[..|xs| - 1]), xs[|xs| - 1])]
  }

  function CountStale(answers: seq<bool>): nat {
    if answers == [] then 0
    else CountStale(answers[..|answers| - 1]) + (if answers[|answers| - 1] then 0 else 1)
  }

  /** The events of one key, in order. */
  function Only(xs: seq<StateEvent>, key: string): seq<StateEvent> {
    if xs == [] then []
    else
      var n := |xs| - 1;
      if StateKeyForEvent(xs[n].e) == key then Only(xs[..n], key) + [xs[n]] else Only(xs[..n], key)
  }

  /**
    One call of the pipelined apply. `landed` lists, by position, the events that ran without
    counting as its result: the part applied before a connection broke, the commands that went
    through while others were refused, and all of that again for every re-run by the client
    itself. When the call succeeds, one complete pass in order follows.
   */
  datatype Pipeline = Pipeline(ok: bool, landed: seq<nat>)

  function Leftovers(xs: seq<StateEvent>, p: Pipeline): seq<StateEvent> {
    Landed(xs, p.landed)
  }

  function Executed(xs: seq<StateEvent>, p: Pipeline): seq<StateEvent> {
    Leftovers(xs, p) + if p.ok then xs else []
  }

  class StateStore {
    var hashes: Hashes

    constructor ()
      ensures hashes == map[]
    {
      hashes := map[];
    }

    /** One run of the script. */
    method ApplyOne(x: StateEvent) returns (applied: bool)
      modifies this
      ensures hashes == Apply(old(hashes), x)
      ensures applied <==> LandsOn(old(hashes), x)
    {
      var h := Get(hashes, StateKeyForEvent(x.e));
      applied := Accepts(h.lastSeen, x.ts);
      hashes := hashes[StateKeyForEvent(x.e) := Cas(h, x)];
    }

    /** Runs the script for each event in order and reports the answers. */
    method RunAll(events: seq<StateEvent>) returns (answers: seq<bool>)
      modifies this
      ensures hashes == ApplyAll(old(hashes), events)
      ensures answers == Answers(old(hashes), events)
    {
      answers := [];
      for i := 0 to |events|
        invariant answers == Answers(old(hashes), events[..i])
        invariant hashes == ApplyAll(old(hashes), events[..i])
      {
        BatchSnoc(old(hashes), events, i);
        var ok := ApplyOne(events[i]);
        answers := answers + [ok];
      }
      assert events[..|events|] == events;
    }

    method ApplyBatch(events: seq<StateEvent>, p: Pipeline) returns (applied: Option<seq<bool>>)
      modifies this
      ensures events != [] ==> hashes == ApplyAll(old(hashes), Executed(events, p))
      ensures events == [] ==> hashes == old(hashes)
      ensures applied.None? <==> events != [] && !p.ok
      ensures applied.Some? ==> |applied.value| == |events|
      ensures applied.Some? && events != [] ==>
                applied.value == Answers(ApplyAll(old(hashes), Leftovers(events, p)), events)
    {
      if events == [] {
        return Some([]);
      }
      ApplyAllConcat(hashes, Leftovers(events, p), if p.ok then events else []);
      var answers := RunAll(Leftovers(events, p));
      if !p.ok {
        assert Leftovers(events, p) + [] == Leftovers(events, p);
        return None;
      }
      AnswersAlign(hashes, events);
      answers := RunAll(events);
      return Some(answers);
    }
  }

  lemma {:induction false} AnswersAlign(store: Hashes, xs: seq<StateEvent>)
    ensures |Answers(store, xs)| == |xs|
  {
    if xs != [] {
      AnswersAlign(store, xs[..|xs| - 1]);
    }
  }

  lemma {:induction false} ApplyAllConcat(store: Hashes, a: seq<StateEvent>, b: seq<StateEvent>)
    ensures ApplyAll(store, a + b) == ApplyAll(ApplyAll(store, a), b)
  {
    if b == [] {
      assert a + b == a;
    } else {
      assert (a + b)[..|a + b| - 1] == a + b[..|b| - 1];
      ApplyAllConcat(store, a, b[..|b| - 1]);
    }
  }

  lemma {:induction false} BatchSnoc(store: Hashes, xs: seq<StateEvent>, i: nat)
    requires i < |xs|
    ensures ApplyAll(store, xs[..i + 1]) == Apply(ApplyAll(store, xs[..i]), xs[i])
    ensures Answers(store, xs[..i + 1]) == Answers(store, xs[..i]) + [LandsOn(ApplyAll(store, xs[..i]), xs[i])]
  {
    assert xs[..i + 1][..i] == xs[..i];
  }

  /** The valid events of a batch, in offset order. */
  function ValidEvents(batch: seq<Message>, views: seq<View>): seq<StateEvent>
    requires |views| == |batch|
  {
    if batch == [] then []
    else
      var n := |batch| - 1;
      var rest := ValidEvents(batch[..n], views[..n]);
      match Judge(batch[n].payload, views[n])
      case Accepted(ts) => rest + [StateEvent(batch[n].payload.event, ts)]
      case Rejected(_) => rest
  }

  /** Event `j` is message `ps[j]` with the instant its verdict carries. */
  predicate EventsAt(events: seq<StateEvent>, batch: seq<Message>, views: seq<View>, ps: seq<nat>)
    requires |views| == |batch|
  {
    && |events| == |ps|
    && forall j | 0 <= j < |ps| ::
         && ps[j] < |batch| && batch[ps[j]].payload.Json? && Judge(batch[ps[j]].payload, views[ps[j]]).Accepted?
         && events[j] == StateEvent(batch[ps[j]].payload.event, Judge(batch[ps[j]].payload, views[ps[j]]).ts)
  }

  lemma {:induction false} ValidEventsAre(batch: seq<Message>, views: seq<View>) returns (ps: seq<nat>)
    requires |views| == |batch|
    ensures EventsAt(ValidEvents(batch, views), batch, views, ps)
    ensures Lists(ps, AcceptedMarks(batch, views))
  {
    if batch == [] {
      ps := [];
    } else {
      var n := |batch| - 1;
      var yes := Judge(batch[n].payload, views[n]).Accepted?;
      ps := ValidEventsAre(batch[..n], views[..n]);
      ListsSnoc(ps, AcceptedMarks(batch[..n], views[..n]), yes);
      MarksSnoc(batch, views);
      LastEvent(batch, views, ps);
      ps := if yes then ps + [n] else ps;
    }
  }

  lemma {:induction false} LastEvent(batch: seq<Message>, views: seq<View>, ps: seq<nat>)
    requires |views| == |batch| > 0
    requires var n := |batch| - 1; EventsAt(ValidEvents(batch[..n], views[..n]), batch[..n], views[..n], ps)
    ensures var n := |batch| - 1;
            EventsAt(ValidEvents(batch, views), batch, views,
                     if Judge(batch[n].payload, views[n]).Accepted? then ps + [n] else ps)
  {
  }

  /** Every accepted message is among the events. */
  lemma {:induction false} AcceptedAreCollected(batch: seq<Message>, views: seq<View>, ps: seq<nat>)
    requires |views| == |batch|
    requires EventsAt(ValidEvents(batch, views), batch, views, ps) && Lists(ps, AcceptedMarks(batch, views))
    ensures forall i | 0 <= i < |batch| && Judge(batch[i].payload, views[i]).Accepted? ::
              && batch[i].payload.Json?
              && StateEvent(batch[i].payload.event, Judge(batch[i].payload, views[i]).ts) in ValidEvents(batch, views)
  {
    forall i | 0 <= i < |batch| && Judge(batch[i].payload, views[i]).Accepted?
      ensures batch[i].payload.Json?
      ensures StateEvent(batch[i].payload.event, Judge(batch[i].payload, views[i]).ts) in ValidEvents(batch, views)
    {
      assert AcceptedMarks(batch, views)[i] && i in ps;
      var j :| 0 <= j < |ps| && ps[j] == i;
      assert ValidEvents(batch, views)[j] in ValidEvents(batch, views);
    }
  }

  /** The key of the event exists and its last_seen has reached the instant. */
  predicate SeenBy(store: Hashes, e: Event, ts: int) {
    var key := StateKeyForEvent(e);
    key in store && store[key].lastSeen.Some? && ts <= store[key].lastSeen.value
  }

  lemma {:induction false} EventsAreSeen(store: Hashes, xs: seq<StateEvent>)
    ensures forall x | x in xs :: SeenBy(ApplyAll(store, xs), x.e, x.ts)
  {
    forall x | x in xs
      ensures SeenBy(ApplyAll(store, xs), x.e, x.ts)
    {
      var key := StateKeyForEvent(x.e);
      KeysAreIndependent(store, xs, key);
      OnlyIsThoseOf(xs, key);
      CasAllIsDelta(Get(store, key), Only(xs, key));
      LastIsMaximum(Get(store, key).lastSeen, Only(xs, key));
      var i :| 0 <= i < |Only(xs, key)| && Only(xs, key)[i] == x;
    }
  }

  /** No event of the key is newer than the instant. */
  predicate NoneNewer(xs: seq<StateEvent>, key: string, ts: int) {
    forall x | x in xs && StateKeyForEvent(x.e) == key :: x.ts <= ts
  }

  /** The key of event `i` has seen nothing newer before it, in the store or in the batch. */
  predicate IsCurrent(store: Hashes, xs: seq<StateEvent>, i: nat)
    requires i < |xs|
  {
    var key := StateKeyForEvent(xs[i].e);
    Accepts(Get(store, key).lastSeen, xs[i].ts) && NoneNewer(xs[..i], key, xs[i].ts)
  }

  function CurrentMarks(store: Hashes, xs: seq<StateEvent>): seq<bool> {
    seq(|xs|, i requires 0 <= i < |xs| => IsCurrent(store, xs, i))
  }

  /** The script answers yes exactly for the events that were current. */
  lemma {:induction false} AnswersIff(store: Hashes, xs: seq<StateEvent>)
    ensures Answers(store, xs) == CurrentMarks(store, xs)
  {
    assert CurrentMarks(store, xs)[..0] == [];
    for i := 0 to |xs|
      invariant Answers(store, xs[..i]) == CurrentMarks(store, xs)[..i]
    {
      NextAnswer(store, xs, i);
    }
    assert xs[..|xs|] == xs && CurrentMarks(store, xs)[..|xs|] == CurrentMarks(store, xs);
  }

  lemma {:induction false} NextAnswer(store: Hashes, xs: seq<StateEvent>, i: nat)
    requires i < |xs| && Answers(store, xs[..i]) == CurrentMarks(store, xs)[..i]
    ensures Answers(store, xs[..i + 1]) == CurrentMarks(store, xs)[..i + 1]
  {
    BatchSnoc(store, xs, i);
    LandsIff(store, xs[..i], xs[i]);
    MarkAt(store, xs, i);
  }

  lemma {:induction false} MarkAt(store: Hashes, xs: seq<StateEvent>, i: nat)
    requires i < |xs|
    ensures var marks := CurrentMarks(store, xs); marks[..i + 1] == marks[..i] + [IsCurrent(store, xs, i)]
  {
  }

  lemma {:induction false} LandsIff(store: Hashes, xs: seq<StateEvent>, x: StateEvent)
    ensures var key := StateKeyForEvent(x.e);
            LandsOn(ApplyAll(store, xs), x) <==> Accepts(Get(store, key).lastSeen, x.ts) && NoneNewer(xs, key, x.ts)
  {
    var key := StateKeyForEvent(x.e);
    KeysAreIndependent(store, xs, key);
    CasAllIsDelta(Get(store, key), Only(xs, key));
    AcceptsIff(Get(store, key).lastSeen, Only(xs, key), x.ts);
    OnlyAtMost(xs, key, x.ts);
  }

  lemma {:induction false} OnlyAtMost(xs: seq<StateEvent>, key: string, ts: int)
    ensures AllAtMost(Only(xs, key), ts) <==> NoneNewer(xs, key, ts)
  {
    OnlyIsThoseOf(xs, key);
    var own := Only(xs, key);
    if AllAtMost(own, ts) {
      forall x | x in xs && StateKeyForEvent(x.e) == key
        ensures x.ts <= ts
      {
        var i :| 0 <= i < |own| && own[i] == x;
      }
    }
    assert forall i | 0 <= i < |own| :: own[i] in own;
  }

  /** How many answers are no. */
  lemma {:induction false} CountStaleIs(answers: seq<bool>)
    ensures CountStale(answers) == multiset(answers)[false]
  {
    if answers != [] {
      var n := |answers| - 1;
      CountStaleIs(answers[..n]);
      assert answers == answers[..n] + [answers[n]];
    }
  }

  class RealtimeHandler {
    const state: StateStore

    constructor (s: StateStore)
      ensures state == s
    {
      state := s;
    }

    /**
      One attempt and at most one retry. When either goes through, the store is as if the batch
      had been applied once if and only if every key is safe with what ran before the pass that
      went through. Returns how many events of that pass were stale, or None when both failed.
     */
    method ApplyBatch(batch: seq<Message>, views: seq<View>, first: Pipeline, second: Pipeline)
      returns (stale: Option<nat>)
      requires |views| == |batch|
      modifies state
      ensures var events := ValidEvents(batch, views);
              var done := RunBefore(events, first, second);
              && (stale.None? <==> events != [] && !first.ok && !second.ok)
              && (events == [] ==> stale == Some(0) && state.hashes == old(state.hashes))
              && (events != [] && stale.None? ==> state.hashes == ApplyAll(old(state.hashes), done))
              && (events != [] && stale.Some? ==>
                    && state.hashes == ApplyAll(ApplyAll(old(state.hashes), done), events)
                    && stale.value == CountStale(Answers(ApplyAll(old(state.hashes), done), events))
                    && (state.hashes == ApplyAll(old(state.hashes), events) <==>
                          StoreRetryIsSafe(old(state.hashes), done, events)))
      ensures stale.Some? ==>
                forall i | 0 <= i < |batch| && Judge(batch[i].payload, views[i]).Accepted? ::
                  && batch[i].payload.Json?
                  && SeenBy(state.hashes, batch[i].payload.event, Judge(batch[i].payload, views[i]).ts)
    {
      var events := CollectValid(batch, views);
      ghost var ps :| EventsAt(events, batch, views, ps) && Lists(ps, AcceptedMarks(batch, views));
      AcceptedAreCollected(batch, views, ps);
      if events == [] {
        return Some(0);
      }
      ghost var before := state.hashes;
      ghost var done := RunBefore(events, first, second);
      Unfold(before, events, first, second);
      RunBeforeIsAmong(events, first, second);
      StoreRetryIff(before, done, events);
      var applied := state.ApplyBatch(events, first);
      if applied.None? {
        applied := state.ApplyBatch(events, second);
        if applied.None? {
          return None;
        }
      }
      EventsAreSeen(ApplyAll(before, done), events);
      var count := CountRejected(applied.value);
      return Some(count);
    }

    method CountRejected(applied: seq<bool>) returns (count: nat)
      ensures count == CountStale(applied)
    {
      count := 0;
      for i := 0 to |applied|
        invariant count == CountStale(applied[..i])
      {
        assert applied[..i + 1][..i] == applied[..i];
        if !applied[i] {
          count := count + 1;
        }
      }
      assert applied[..|applied|] == applied;
    }

    /** The accepted messages, each once and in offset order, with their event times. */
    method CollectValid(batch: seq<Message>, views: seq<View>) returns (events: seq<StateEvent>)
      requires |views| == |batch|
      ensures events == ValidEvents(batch, views)
      ensures exists ps :: EventsAt(events, batch, views, ps) && Lists(ps, AcceptedMarks(batch, views))
    {
      ghost var ps := ValidEventsAre(batch, views);
      events := [];
      for i := 0 to |batch|
        invariant events == ValidEvents(batch[..i], views[..i])
      {
        assert batch[..i + 1][..i] == batch[..i] && views[..i + 1][..i] == views[..i];
        match Judge(batch[i].payload, views[i])
        case Accepted(ts) =>
          events := events + [StateEvent(batch[i].payload.event, ts)];
        case Rejected(_) =>
      }
      assert batch[..|batch|] == batch && views[..|batch|] == views;
    }
  }

  // ---------------------------------------------------------------------------------------
  // The store, key by key
  // ---------------------------------------------------------------------------------------

  /** Each key sees its own events and nothing else. */
  lemma {:induction false} KeysAreIndependent(store: Hashes, xs: seq<StateEvent>, key: string)
    ensures Get(ApplyAll(store, xs), key) == CasAll(Get(store, key), Only(xs, key))
    ensures key in ApplyAll(store, xs) <==> key in store || Only(xs, key) != []
  {
    if xs != [] {
      var n := |xs| - 1;
      KeysAreIndependent(store, xs[..n], key);
      if StateKeyForEvent(xs[n].e) == key {
        var some := Only(xs, key);
        assert some[..|some| - 1] == Only(xs[..n], key);
      }
    }
  }

  lemma {:induction false} OnlyConcat(a: seq<StateEvent>, b: seq<StateEvent>, key: string)
    ensures Only(a + b, key) == Only(a, key) + Only(b, key)
  {
    if b == [] {
      assert a + b == a;
    } else {
      assert (a + b)[..|a + b| - 1] == a + b[..|b| - 1];
      OnlyConcat(a, b[..|b| - 1], key);
    }
  }

  lemma {:induction false} OnlyPrefix(xs: seq<StateEvent>, k: nat, key: string)
    requires k <= |xs|
    ensures IsPrefix(Only(xs[..k], key), Only(xs, key))
  {
    assert xs == xs[..k] + xs[k..];
    OnlyConcat(xs[..k], xs[k..], key);
  }

  predicate IsPrefix(a: seq<StateEvent>, b: seq<StateEvent>) {
    |a| <= |b| && b[..|a|] == a
  }

  /** Re-applying a batch after any prefix of it leaves the whole store as one application does. */
  lemma {:induction false} StoreRetryIsHarmless(store: Hashes, xs: seq<StateEvent>, k: nat)
    requires k <= |xs|
    ensures ApplyAll(ApplyAll(store, xs[..k]), xs) == ApplyAll(store, xs)
  {
    var a, b := ApplyAll(ApplyAll(store, xs[..k]), xs), ApplyAll(store, xs);
    forall key
      ensures key in a <==> key in b
      ensures Get(a, key) == Get(b, key)
    {
      KeysAreIndependent(store, xs[..k], key);
      KeysAreIndependent(ApplyAll(store, xs[..k]), xs, key);
      KeysAreIndependent(store, xs, key);
      OnlyPrefix(xs, k, key);
      var own, done := Only(xs, key), Only(xs[..k], key);
      RetryIsHarmless(Get(store, key), own, |done|);
    }
    assert forall key | key in a :: a[key] == Get(a, key) == Get(b, key) == b[key];
    assert a.Keys == b.Keys;
  }

  // ---------------------------------------------------------------------------------------
  // Re-applying a batch
  // ---------------------------------------------------------------------------------------

  /** All that ran before the pass that goes through, or in all when none does. */
  function RunBefore(xs: seq<StateEvent>, first: Pipeline, second: Pipeline): seq<StateEvent> {
    if first.ok then Leftovers(xs, first) else Leftovers(xs, first) + Leftovers(xs, second)
  }

  lemma {:induction false} Unfold(store: Hashes, xs: seq<StateEvent>, first: Pipeline, second: Pipeline)
    ensures first.ok ==> ApplyAll(store, Executed(xs, first)) == ApplyAll(ApplyAll(store, RunBefore(xs, first,
        second)), xs)
    ensures !first.ok ==>
              && ApplyAll(ApplyAll(store, Executed(xs, first)), Leftovers(xs, second))
                 == ApplyAll(store, RunBefore(xs, first, second))
              && ApplyAll(ApplyAll(store, Executed(xs, first)), Executed(xs, second))
                 == if second.ok then ApplyAll(ApplyAll(store, RunBefore(xs, first, second)), xs)
                    else ApplyAll(store, RunBefore(xs, first, second))
  {
    var a, b := Leftovers(xs, first), Leftovers(xs, second);
    assert a + [] == a && b + [] == b;
    if first.ok {
      ApplyAllConcat(store, a, xs);
    } else {
      ApplyAllConcat(store, a, b);
      ApplyAllConcat(ApplyAll(store, a), b, xs);
    }
  }

  lemma {:induction false} RunBeforeIsAmong(xs: seq<StateEvent>, first: Pipeline, second: Pipeline)
    ensures Among(RunBefore(xs, first, second), xs)
  {
    LandedIsSome(xs, first.landed);
    LandedIsSome(xs, second.landed);
    var done := RunBefore(xs, first, second);
    forall i | 0 <= i < |done|
      ensures done[i] in xs
    {
      assert done[i] in Leftovers(xs, first) || done[i] in Leftovers(xs, second);
    }
  }

  lemma {:induction false} OnlyIsThoseOf(xs: seq<StateEvent>, key: string)
    ensures forall x :: x in Only(xs, key) <==> x in xs && StateKeyForEvent(x.e) == key
  {
    if xs != [] {
      var n := |xs| - 1;
      OnlyIsThoseOf(xs[..n], key);
      assert xs == xs[..n] + [xs[n]];
    }
  }

  lemma {:induction false} OnlyKeepsAmong(done: seq<StateEvent>, xs: seq<StateEvent>, key: string)
    requires Among(done, xs)
    ensures Among(Only(done, key), Only(xs, key))
    ensures Only(done, key) != [] ==> Only(xs, key) != []
  {
    OnlyIsThoseOf(done, key);
    OnlyIsThoseOf(xs, key);
    var part := Only(done, key);
    forall i | 0 <= i < |part|
      ensures part[i] in Only(xs, key)
    {
      assert part[i] in part;
      var j :| 0 <= j < |done| && done[j] == part[i];
    }
    assert part != [] ==> part[0] in Only(xs, key);
  }

  ghost predicate StoreRetryIsSafe(store: Hashes, done: seq<StateEvent>, xs: seq<StateEvent>) {
    forall key :: RetryIsSafe(Get(store, key), Only(done, key), Only(xs, key))
  }

  /**
    Re-applying a batch to the store, exactly: after any part of it, in any order and with any
    repeats, a complete pass equals one application if and only if every key and field is safe.
   */
  lemma {:induction false} StoreRetryIff(store: Hashes, done: seq<StateEvent>, xs: seq<StateEvent>)
    requires Among(done, xs)
    ensures ApplyAll(ApplyAll(store, done), xs) == ApplyAll(store, xs) <==> StoreRetryIsSafe(store, done, xs)
  {
    var a, b := ApplyAll(ApplyAll(store, done), xs), ApplyAll(store, xs);
    forall key
      ensures key in a <==> key in b
      ensures Get(a, key) == Get(b, key) <==> RetryIsSafe(Get(store, key), Only(done, key), Only(xs, key))
    {
      KeyRetryIff(store, done, xs, key);
    }
    SameHashes(a, b);
  }

  lemma {:induction false} KeyRetryIff(store: Hashes, done: seq<StateEvent>, xs: seq<StateEvent>, key: string)
    requires Among(done, xs)
    ensures var a, b := ApplyAll(ApplyAll(store, done), xs), ApplyAll(store, xs);
            && (key in a <==> key in b)
            && (Get(a, key) == Get(b, key) <==> RetryIsSafe(Get(store, key), Only(done, key), Only(xs, key)))
  {
    KeysAreIndependent(store, done, key);
    KeysAreIndependent(ApplyAll(store, done), xs, key);
    KeysAreIndependent(store, xs, key);
    OnlyKeepsAmong(done, xs, key);
    RetryIff(Get(store, key), Only(done, key), Only(xs, key));
  }

  lemma {:induction false} SameHashes(a: Hashes, b: Hashes)
    requires forall key :: key in a <==> key in b
    ensures a == b <==> forall key :: Get(a, key) == Get(b, key)
  {
    if forall key :: Get(a, key) == Get(b, key) {
      assert forall key | key in a :: a[key] == Get(a, key) == Get(b, key) == b[key];
      assert a.Keys == b.Keys;
    }
  }

  /** What passes leave that each broke after a prefix. */
  function Prefixes(xs: seq<StateEvent>, ks: seq<nat>): seq<StateEvent> {
    if ks == [] then []
    else
      var n := |ks| - 1;
      Prefixes(xs, ks[..n]) + if ks[n] <= |xs| then xs[..ks[n]] else xs
  }

  /** As long as every earlier pass only broke off, any number of them is harmless. */
  lemma {:induction false} BrokenPassesAreHarmless(store: Hashes, xs: seq<StateEvent>, ks: seq<nat>)
    ensures ApplyAll(ApplyAll(store, Prefixes(xs, ks)), xs) == ApplyAll(store, xs)
  {
    if ks != [] {
      var n := |ks| - 1;
      var k := if ks[n] <= |xs| then ks[n] else |xs|;
      assert xs[..|xs|] == xs;
      BrokenPassesAreHarmless(store, xs, ks[..n]);
      ApplyAllConcat(store, Prefixes(xs, ks[..n]), xs[..k]);
      StoreRetryIsHarmless(ApplyAll(store, Prefixes(xs, ks[..n])), xs, k);
    }
  }

  ghost predicate StoreIsIdle(store: Hashes, ys: seq<StateEvent>) {
    forall key :: IsIdle(Get(store, key), Only(ys, key))
  }

  /** Any further pass, complete or not, changes nothing in the store if and only if every key is idle. */
  lemma {:induction false} StorePassChangesNothingIff(store: Hashes, ys: seq<StateEvent>)
    ensures ApplyAll(store, ys) == store <==> StoreIsIdle(store, ys)
  {
    var a := ApplyAll(store, ys);
    forall key
      ensures Get(a, key) == Get(store, key) <==> IsIdle(Get(store, key), Only(ys, key))
      ensures Get(a, key) == Get(store, key) ==> (key in a <==> key in store)
    {
      KeysAreIndependent(store, ys, key);
      PassChangesNothingIff(Get(store, key), Only(ys, key));
    }
    if StoreIsIdle(store, ys) {
      forall key
        ensures Get(a, key) == Get(store, key) && (key in a <==> key in store)
      {
        assert IsIdle(Get(store, key), Only(ys, key));
      }
      SameHashes(a, store);
    }
  }

  /** Self-healing on the store: the key of the next event, whatever two histories left of the others. */
  lemma {:induction false} StoreLossHeals(
    store: Hashes, before: seq<StateEvent>, other: seq<StateEvent>, x: StateEvent, after: seq<StateEvent>, f: Field)
    requires var key := StateKeyForEvent(x.e);
             && Accepts(Get(store, key).lastSeen, x.ts)
             && AllAtMost(Only(before, key), x.ts) && AllAtMost(Only(other, key), x.ts)
    ensures var key := StateKeyForEvent(x.e);
            var lossless, lossy := Get(ApplyAll(store, before), key), Get(ApplyAll(store, other), key);
            var a, b := Get(ApplyAll(store, before + [x] + after), key), Get(ApplyAll(store, other + [x] + after), key);
            && a.lastSeen == b.lastSeen
            && (Lookup(a, f) == Lookup(b, f) <==>
                  || f in Writes(x.e) || f in Delta(Some(x.ts), Only(after, key))
                  || Lookup(lossless, f) == Lookup(lossy, f))
  {
    var key := StateKeyForEvent(x.e);
    KeyOfHistory(store, before, x, after);
    KeyOfHistory(store, other, x, after);
    LossHeals(Get(store, key), Only(before, key), Only(other, key), x, Only(after, key), f);
  }

  lemma {:induction false} KeyOfHistory(store: Hashes, before: seq<StateEvent>, x: StateEvent, after: seq<StateEvent>)
    ensures var key := StateKeyForEvent(x.e);
            && Get(ApplyAll(store, before), key) == CasAll(Get(store, key), Only(before, key))
            && Get(ApplyAll(store, before + [x] + after), key)
               == CasAll(Cas(CasAll(Get(store, key), Only(before, key)), x), Only(after, key))
  {
    var key := StateKeyForEvent(x.e);
    KeysAreIndependent(store, before, key);
    ApplyAllConcat(store, before + [x], after);
    KeysAreIndependent(ApplyAll(store, before + [x]), after, key);
    assert (before + [x])[..|before|] == before;
    assert ApplyAll(store, before + [x]) == Apply(ApplyAll(store, before), x);
  }
}
