/**
  One analytics worker of processor/consumer.go as the program runs it: fill a batch, flush it,
  commit or rejoin. Every turn of the loop is a run of the step system in Delivery.
 */
module Consumer {
  import opened Events
  import opened Validation
  import opened Analytics
  import opened Delivery

  datatype FlushReason = BySize | ByTimer

  /** What the outside world does to one turn of the loop. */
  datatype Turn = Turn(
    arrivals: seq<Option<nat>>,
    registry: nat -> View,
    at: int,
    lookupOk: bool,
    cleanWrite: Write,
    dlqWrite: Write,
    mark: MarkOutcome,
    commitReaches: set<nat>)

  /** A turn of the worker, or something that happens between two turns. */
  datatype Round = Work(turn: Turn) | Incoming(p: nat, key: string, payload: Payload, time: int) | KeyLost(id: string)

  function Fetches(from: seq<nat>): seq<Action> {
    if from == [] then [] else Fetches(from[..|from| - 1]) + [Fetch(0, from[|from| - 1])]
  }

  /** How many of the first `j` arrivals name partition `p`. */
  function Earlier(arrivals: seq<Option<nat>>, p: nat, j: nat): nat
    requires j <= |arrivals|
  {
    if j == 0 then 0 else Earlier(arrivals, p, j - 1) + if arrivals[j - 1] == Some(p) then 1 else 0
  }

  /** Arrival `j` names a partition with a message still waiting behind those of the arrivals before it. */
  predicate Yields(raw: seq<seq<Message>>, pos: seq<nat>, arrivals: seq<Option<nat>>, j: nat) {
    && j < |arrivals| && arrivals[j].Some?
    && var p := arrivals[j].value;
    && p < |raw| && p < |pos| && pos[p] + Earlier(arrivals, p, j) < |raw[p]|
  }

  /** The batch holds the messages that its arrivals name. */
  predicate Taken(raw: seq<seq<Message>>, pos: seq<nat>, arrivals: seq<Option<nat>>, batch: seq<Message>) {
    forall j | 0 <= j < |batch| :: Yields(raw, pos, arrivals, j) && batch[j] == Named(raw, pos, arrivals, j)
  }

  function Named(raw: seq<seq<Message>>, pos: seq<nat>, arrivals: seq<Option<nat>>, j: nat): Message
    requires Yields(raw, pos, arrivals, j)
  {
    var p := arrivals[j].value;
    raw[p][pos[p] + Earlier(arrivals, p, j)]
  }

  /**
    The messages waiting at the positions that the arrivals name, in order, up to the size cap (one
    at least) or the first arrival that yields nothing.
   */
  predicate Takes(raw: seq<seq<Message>>, pos: seq<nat>, arrivals: seq<Option<nat>>, size: nat, batch: seq<Message>) {
    && Taken(raw, pos, arrivals, batch)
    && |batch| <= (if size == 0 then 1 else size)
    && (|batch| < (if size == 0 then 1 else size) ==> !Yields(raw, pos, arrivals, |batch|))
  }

  /** The positions after the first `k` arrivals. */
  predicate Advanced(before: seq<nat>, after: seq<nat>, arrivals: seq<Option<nat>>, k: nat) {
    && k <= |arrivals| && |after| == |before|
    && forall p | 0 <= p < |after| :: after[p] == before[p] + Earlier(arrivals, p, k)
  }

  lemma {:induction false} OneMoreTaken(
    raw: seq<seq<Message>>, begin: seq<nat>, pos: seq<nat>, arrivals: seq<Option<nat>>, batch: seq<Message>)
    requires Advanced(begin, pos, arrivals, |batch|) && Taken(raw, begin, arrivals, batch)
    ensures var waits := |batch| < |arrivals| && arrivals[|batch|].Some? && arrivals[|batch|].value < |raw|
                         && arrivals[|batch|].value < |pos|
                         && pos[arrivals[|batch|].value] < |raw[arrivals[|batch|].value]|;
            && (waits <==> Yields(raw, begin, arrivals, |batch|))
            && (waits ==>
                  var p := arrivals[|batch|].value;
                  && Advanced(begin, pos[p := pos[p] + 1], arrivals, |batch| + 1)
                  && Taken(raw, begin, arrivals, batch + [raw[p][pos[p]]]))
  {
  }

  /** Every message of the batch on a reached partition is below its commit, and nothing else moves. */
  predicate Commits(before: seq<nat>, after: seq<nat>, batch: seq<Message>, reached: set<nat>) {
    && |after| == |before|
    && (forall i | 0 <= i < |batch| && batch[i].partition in reached && batch[i].partition < |after| ::
          batch[i].offset < after[batch[i].partition])
    && (forall p | 0 <= p < |after| && after[p] != before[p] ::
          p in reached && exists i :: 0 <= i < |batch| && batch[i].partition == p && after[p] == batch[i].offset + 1)
  }

  /** A turn with one arrival takes the one message that waits there. */
  lemma {:induction false} OneArrival(
    raw: seq<seq<Message>>, pos: seq<nat>, p: nat, size: nat, batch: seq<Message>)
    requires p < |raw| && p < |pos| && pos[p] < |raw[p]| && Takes(raw, pos, [Some(p)], size, batch)
    ensures batch == [raw[p][pos[p]]]
  {
    assert Yields(raw, pos, [Some(p)], 0);
    assert !Yields(raw, pos, [Some(p)], 1);
    assert Named(raw, pos, [Some(p)], 0) == raw[p][pos[p]];
  }

  /** Committing that message moves the position and the commit by one. */
  lemma {:induction false} OneCommitted(
    before: seq<nat>, pos: seq<nat>, committed: seq<nat>, p: nat, m: Message)
    requires p < |before| && m.partition == p && m.offset == before[p]
    requires Advanced(before, pos, [Some(p)], 1) && Commits(before, committed, [m], {p})
    ensures pos == committed == before[p := before[p] + 1]
  {
    assert forall q | 0 <= q < |pos| :: Earlier([Some(p)], q, 1) == if q == p then 1 else 0;
    assert [m][0].offset < committed[p];
  }

  lemma {:induction false} TopCovers(batch: seq<Message>, i: nat)
    requires i < |batch|
    ensures batch[i].offset < Top(batch, batch[i].partition)
  {
    if i < |batch| - 1 {
      TopCovers(batch[..|batch| - 1], i);
    }
  }

  lemma {:induction false} CommitOffsetsCommit(before: seq<nat>, batch: seq<Message>, reached: set<nat>)
    ensures Commits(before, CommitOffsets(before, batch, reached), batch, reached)
  {
    var after := CommitOffsets(before, batch, reached);
    forall i | 0 <= i < |batch| && batch[i].partition in reached && batch[i].partition < |after|
      ensures batch[i].offset < after[batch[i].partition]
    {
      TopCovers(batch, i);
    }
    forall p | 0 <= p < |after| && after[p] != before[p]
      ensures p in reached && exists i :: 0 <= i < |batch| && batch[i].partition == p && after[p] == batch[i].offset + 1
    {
      TopIsInBatch(batch, p);
      var m :| m in batch && m.partition == p && m.offset + 1 == Top(batch, p);
      var i :| 0 <= i < |batch| && batch[i] == m;
    }
  }

  class AnalyticsWorker {
    const handler: AnalyticsHandler
    const size: nat
    var raw: seq<seq<Message>>
    var committed: seq<nat>
    var pos: seq<nat>

    constructor (h: AnalyticsHandler, partitions: nat, batchSize: nat)
      requires h.dedup.keys == {} && h.writers.clean == [] && h.writers.dlq == []
      ensures handler == h && size == batchSize
      ensures State([], Filling) == Init(partitions, 1)
    {
      handler, size := h, batchSize;
      raw := seq(partitions, _ => []);
      committed := seq(partitions, _ => 0);
      pos := seq(partitions, _ => 0);
    }

    /** The step system's view of this worker, its broker and its stores. */
    ghost function State(batch: seq<Message>, stage: Stage): System
      reads this, handler.dedup, handler.writers
    {
      System(raw, committed, [Worker(pos, batch, stage)], handler.dedup.keys, handler.writers.clean,
          handler.writers.dlq)
    }

    /** The next message of a partition joins the batch, or an error when none arrives in time. */
    method FetchMessage(from: Option<nat>, batch: seq<Message>) returns (more: seq<Message>, err: bool)
      modifies this`pos
      ensures !err <==> && from.Some? && from.value < |raw| && from.value < |old(pos)|
                        && old(pos)[from.value] < |raw[from.value]|
      ensures err ==> more == batch && pos == old(pos)
      ensures !err ==> more == batch + [raw[from.value][old(pos)[from.value]]]
      ensures !err ==> pos == old(pos)[from.value := old(pos)[from.value] + 1]
      ensures !err ==> State(more, Filling) == Next(old(State(batch, Filling)), Fetch(0, from.value))
    {
      if from.None? || from.value >= |raw| || from.value >= |pos| || pos[from.value] >= |raw[from.value]| {
        return batch, true;
      }
      more, err := batch + [raw[from.value][pos[from.value]]], false;
      pos := pos[from.value := pos[from.value] + 1];
    }

    /** The batch so far: a run of fetches, and the messages that the first arrivals name. */
    ghost predicate Filled(start: System, arrivals: seq<Option<nat>>, batch: seq<Message>, from: seq<nat>)
      reads this, handler.dedup, handler.writers
    {
      && start.workers != [] && |from| == |batch|
      && State(batch, Filling) == Exec(start, Fetches(from))
      && Advanced(start.workers[0].pos, pos, arrivals, |batch|)
      && Taken(raw, start.workers[0].pos, arrivals, batch)
    }

    /** The next arrival joins the batch if it yields a message. */
    method FetchNext(arrivals: seq<Option<nat>>, batch: seq<Message>, ghost start: System, ghost from: seq<nat>)
      returns (more: seq<Message>, late: bool, ghost from': seq<nat>)
      requires Filled(start, arrivals, batch, from)
      modifies this`pos
      ensures late <==> !Yields(raw, start.workers[0].pos, arrivals, |batch|)
      ensures |more| == |batch| + if late then 0 else 1
      ensures Filled(start, arrivals, more, from')
    {
      OneMoreTaken(raw, start.workers[0].pos, pos, arrivals, batch);
      var next := if |batch| < |arrivals| then arrivals[|batch|] else None;
      more, late := FetchMessage(next, batch);
      from' := from;
      if !late {
        FetchesSnoc(start, from, next.value);
        from' := from + [next.value];
      }
    }

    /** fillBatch: at least one message unless the first fetch fails, at most `size`. */
    method FillBatch(arrivals: seq<Option<nat>>)
      returns (batch: seq<Message>, reason: FlushReason, err: bool, ghost from: seq<nat>)
      modifies this`pos
      ensures State(batch, Filling) == Exec(old(State([], Filling)), Fetches(from)) && |from| == |batch|
      ensures err <==> batch == []
      ensures !err ==> (reason.BySize? <==> size <= |batch|)
      ensures Takes(raw, old(pos), arrivals, size, batch)
      ensures Advanced(old(pos), pos, arrivals, |batch|)
    {
      ghost var start := State([], Filling);
      reason := BySize;
      batch, err, from := FetchNext(arrivals, [], start, []);
      if err {
        return;
      }
      while |batch| < size
        invariant 1 <= |batch| && (|batch| <= size || |batch| == 1)
        invariant Filled(start, arrivals, batch, from)
      {
        var late;
        batch, late, from := FetchNext(arrivals, batch, start, from);
        if late {
          reason := ByTimer;
          return;
        }
      }
    }

    /** What the turn makes of a batch: the rows it would publish and the letters it would write. */
    function Novel(batch: seq<Message>, turn: Turn): seq<CleanRow>
      reads handler.dedup
    {
      Fresh(batch, seq(|batch|, turn.registry), turn.at, handler.dedup.keys, turn.lookupOk)
    }

    function Letters(batch: seq<Message>, turn: Turn): seq<DeadLetter> {
      Dead(batch, seq(|batch|, turn.registry), turn.at)
    }

    /** Flush, and on an error rejoin from the last commit. */
    method FlushBatch(batch: seq<Message>, turn: Turn) returns (err: bool, ghost run: seq<Action>)
      requires batch != []
      modifies this`pos, handler.dedup, handler.writers
      ensures Exec(old(State(batch, Filling)), run)
              == if err then State([], Filling) else State(batch, Committing)
      ensures err <==> || (old(Novel(batch, turn)) != [] && !turn.cleanWrite.ok)
                       || (Letters(batch, turn) != [] && !turn.dlqWrite.ok)
      ensures handler.writers.clean == old(handler.writers.clean) + Appended(old(Novel(batch, turn)), turn.cleanWrite)
      ensures !err ==> handler.writers.dlq == old(handler.writers.dlq) + Appended(Letters(batch, turn), turn.dlqWrite)
      ensures handler.dedup.keys == if err then old(handler.dedup.keys)
                                    else Marked(old(handler.dedup.keys), old(Novel(batch, turn)), turn.mark)
      ensures pos == if err then committed else old(pos)
    {
      var views := seq(|batch|, turn.registry);
      ghost var filled := State(batch, Filling);
      run := FlushRun(0, views, turn.at, turn.lookupOk, turn.cleanWrite, turn.dlqWrite, turn.mark);
      FlushIsARun(filled, 0, views, turn.at, turn.lookupOk, turn.cleanWrite, turn.dlqWrite, turn.mark);
      err := handler.Flush(batch, views, turn.at, turn.lookupOk, turn.cleanWrite, turn.dlqWrite, turn.mark);
      if err {
        pos := committed;
      }
    }

    /**
      One turn of the loop: it takes what waits, publishes and dead-letters it, and commits it on
      the partitions that the broker got to. It fails exactly when nothing waits or the produce of
      a non-empty output fails; then it commits nothing. Each turn is a run of the step system.
     */
    method RunOnce(turn: Turn) returns (err: bool, batch: seq<Message>, ghost run: seq<Action>)
      modifies this, handler.dedup, handler.writers
      ensures raw == old(raw)
      ensures State([], Filling) == Exec(old(State([], Filling)), run)
      ensures Takes(raw, old(pos), turn.arrivals, size, batch)
      ensures err <==> || batch == []
                       || (old(Novel(batch, turn)) != [] && !turn.cleanWrite.ok)
                       || (Letters(batch, turn) != [] && !turn.dlqWrite.ok)
      ensures err ==> committed == old(committed)
      ensures err && batch != [] ==> pos == committed
      ensures !err ==> Commits(old(committed), committed, batch, turn.commitReaches)
      ensures !err ==> Advanced(old(pos), pos, turn.arrivals, |batch|)
      ensures !err ==>
                && handler.writers.clean == old(handler.writers.clean) + Appended(old(Novel(batch, turn)),
                    turn.cleanWrite)
                && handler.writers.dlq == old(handler.writers.dlq) + Appended(Letters(batch, turn), turn.dlqWrite)
                && handler.dedup.keys == Marked(old(handler.dedup.keys), old(Novel(batch, turn)), turn.mark)
    {
      ghost var start, begin := State([], Filling), pos;
      ghost var from, flush;
      var reason;
      batch, reason, err, from := FillBatch(turn.arrivals);
      run := Fetches(from);
      if err {
        return;
      }
      err, flush := FlushBatch(batch, turn);
      ExecConcat(start, run, flush);
      run := run + flush;
      if err {
        return;
      }
      CommitMessages(batch, turn.commitReaches);
      ExecSnoc(start, run, Commit(0, turn.commitReaches));
      run := run + [Commit(0, turn.commitReaches)];
    }

    /** The highest offset per partition, on the partitions the broker got to. */
    method CommitMessages(batch: seq<Message>, reached: set<nat>)
      modifies this`committed
      ensures State([], Filling) == Next(old(State(batch, Committing)), Commit(0, reached))
      ensures Commits(old(committed), committed, batch, reached)
    {
      var before, offsets: seq<nat> := committed, [];
      for p := 0 to |before|
        invariant |offsets| == p && committed == before
        invariant forall q | 0 <= q < p :: offsets[q] == CommitOffsets(before, batch, reached)[q]
      {
        var top := TopOffset(batch, p);
        offsets := offsets + [if p in reached && top > 0 then top else before[p]];
      }
      CommitOffsetsCommit(before, batch, reached);
      assert offsets == CommitOffsets(before, batch, reached);
      committed := offsets;
    }

    method TopOffset(batch: seq<Message>, p: nat) returns (top: nat)
      ensures top == Top(batch, p)
    {
      top := 0;
      for i := 0 to |batch|
        invariant top == Top(batch[..i], p)
      {
        assert batch[..i + 1][..i] == batch[..i];
        if batch[i].partition == p && top <= batch[i].offset {
          top := batch[i].offset + 1;
        }
      }
      assert batch[..|batch|] == batch;
    }

    /** Turn by turn without failures, the worker commits everything that waits. */
    method Drain(view: View)
      requires Inv(State([], Filling)) && pos == committed
      modifies this, handler.dedup, handler.writers
      ensures raw == old(raw) && Inv(State([], Filling))
      ensures |committed| == |raw| && forall p | 0 <= p < |raw| :: committed[p] == |raw[p]|
    {
      for p := 0 to |raw|
        invariant raw == old(raw) && Inv(State([], Filling)) && pos == committed
        invariant forall q | 0 <= q < p :: committed[q] == |raw[q]|
      {
        while committed[p] < |raw[p]|
          invariant raw == old(raw) && Inv(State([], Filling)) && pos == committed
          invariant forall q | 0 <= q < p :: committed[q] == |raw[q]|
          decreases |raw[p]| - committed[p]
        {
          CommitNext(p, view);
        }
      }
    }

    method CommitNext(p: nat, view: View)
      requires Inv(State([], Filling)) && pos == committed && p < |raw| && committed[p] < |raw[p]|
      modifies this, handler.dedup, handler.writers
      ensures raw == old(raw) && Inv(State([], Filling)) && pos == committed
      ensures committed == old(committed)[p := old(committed)[p] + 1]
    {
      ghost var before := State([], Filling);
      ghost var run;
      var m := raw[p][committed[p]];
      var err, batch;
      err, batch, run := RunOnce(Turn([Some(p)], _ => view, 0, true, Write(true, []), Write(true, []), AllMarked, {p}));
      OneArrival(raw, before.committed, p, size, batch);
      OneCommitted(before.committed, pos, committed, p, m);
      RunKeepsInv(before, run);
    }

    /** A key expires or is evicted. */
    method LoseKey(id: string)
      modifies handler.dedup
      ensures handler.dedup.keys == old(handler.dedup.keys) - {id}
    {
      handler.dedup.keys := handler.dedup.keys - {id};
    }

    /** However many turns, failures and outside events: nothing below a committed offset is lost. */
    method Serve(rounds: seq<Round>)
      requires Inv(State([], Filling))
      modifies this, handler.dedup, handler.writers
      ensures Inv(State([], Filling)) && NothingLost(State([], Filling))
    {
      for i := 0 to |rounds|
        invariant Inv(State([], Filling))
      {
        ghost var before := State([], Filling);
        match rounds[i]
        case Work(turn) =>
          var err, batch;
          ghost var run;
          err, batch, run := RunOnce(turn);
          RunKeepsInv(before, run);
        case Incoming(p, key, payload, time) =>
          if p < |raw| {
            raw := raw[p := raw[p] + [Message(p, |raw[p]|, key, payload, time)]];
            AppendKeepsInv(before, Append(p, key, payload, time));
          }
        case KeyLost(id) =>
          LoseKey(id);
          RestartKeepsInv(before, Expire(id));
      }
    }
  }

  lemma {:induction false} FetchesSnoc(s: System, from: seq<nat>, p: nat)
    ensures Exec(s, Fetches(from + [p])) == Next(Exec(s, Fetches(from)), Fetch(0, p))
  {
  }
}
