/**
  The analytics consumer group as a step system (processor/consumer.go around the flush of
  processor/analytics.go). Workers fetch, look up, produce, dead-letter, mark and commit in
  any interleaving; every step may fail or be cut short, workers restart from the last
  commit at any moment, partitions move between workers, and dedup keys vanish at will.
 */
module Delivery {
  import opened Validation
  import opened Analytics

  /** How far a worker is with the batch in hand. */
  datatype Stage =
    | Filling
    | Producing(novel: seq<CleanRow>, dead: seq<DeadLetter>)
    | DeadLettering(novel: seq<CleanRow>, dead: seq<DeadLetter>)
    | Marking(novel: seq<CleanRow>)
    | Committing

  datatype Worker = Worker(pos: seq<nat>, batch: seq<Message>, stage: Stage)

  datatype System = System(
    raw: seq<seq<Message>>,
    committed: seq<nat>,
    workers: seq<Worker>,
    keys: set<string>,
    clean: seq<CleanRow>,
    dlq: seq<DeadLetter>)

  datatype Action =
    | Append(p: nat, key: string, payload: Payload, time: int)
    | Restart(w: nat)
    | Assign(w: nat, p: nat)
    | Fetch(w: nat, p: nat)
    | Lookup(w: nat, views: seq<View>, at: int, ok: bool)
    | ProduceClean(w: nat, write: Write)
    | ProduceDlq(w: nat, write: Write)
    | Mark(w: nat, outcome: MarkOutcome)
    | Commit(w: nat, reached: set<nat>)
    | Expire(id: string)

  /** A worker that has just (re)joined the group reads from the committed offsets. */
  function Joined(s: System): Worker {
    Worker(s.committed, [], Filling)
  }

  function Init(partitions: nat, workers: nat): System {
    var zeros := seq(partitions, _ => 0);
    System(seq(partitions, _ => []), zeros, seq(workers, _ => Worker(zeros, [], Filling)), {}, [], [])
  }

  predicate Enabled(s: System, a: Action) {
    match a
    case Append(p, _, _, _) => p < |s.raw|
    case Expire(_) => true
    case Restart(w) => w < |s.workers|
    case Assign(w, p) => w < |s.workers| && p < |s.committed| && p < |s.workers[w].pos|
    case Fetch(w, p) =>
      && w < |s.workers| && s.workers[w].stage.Filling?
      && p < |s.raw| && p < |s.workers[w].pos| && s.workers[w].pos[p] < |s.raw[p]|
    case Lookup(w, views, _, _) =>
      && w < |s.workers| && s.workers[w].stage.Filling?
      && s.workers[w].batch != [] && |views| == |s.workers[w].batch|
    case ProduceClean(w, _) => w < |s.workers| && s.workers[w].stage.Producing?
    case ProduceDlq(w, _) => w < |s.workers| && s.workers[w].stage.DeadLettering?
    case Mark(w, _) => w < |s.workers| && s.workers[w].stage.Marking?
    case Commit(w, _) => w < |s.workers| && s.workers[w].stage.Committing?
  }

  /** One past the highest offset of partition `p` in the batch, 0 when there is none. */
  function Top(batch: seq<Message>, p: nat): nat {
    if batch == [] then 0
    else
      var n := |batch| - 1;
      var rest := Top(batch[..n], p);
      if batch[n].partition == p && rest <= batch[n].offset then batch[n].offset + 1 else rest
  }

  /** CommitMessages: the highest offset per partition, on the partitions the broker applied. */
  function CommitOffsets(committed: seq<nat>, batch: seq<Message>, reached: set<nat>): seq<nat> {
    seq(|committed|, p requires 0 <= p < |committed| =>
      if p in reached && Top(batch, p) > 0 then Top(batch, p) else committed[p])
  }

  function SetWorker(s: System, w: nat, k: Worker): System
    requires w < |s.workers|
  {
    s.(workers := s.workers[w := k])
  }

  function Step(s: System, a: Action): System
    requires Enabled(s, a)
  {
    match a
    case Append(p, key, payload, time) =>
      s.(raw := s.raw[p := s.raw[p] + [Message(p, |s.raw[p]|, key, payload, time)]])
    case Expire(id) => s.(keys := s.keys - {id})
    case Restart(w) => SetWorker(s, w, Joined(s))
    case Assign(w, p) =>
      var k := s.workers[w];
      SetWorker(s, w, k.(pos := k.pos[p := s.committed[p]]))
    case Fetch(w, p) =>
      var k := s.workers[w];
      SetWorker(s, w, k.(batch := k.batch + [s.raw[p][k.pos[p]]], pos := k.pos[p := k.pos[p] + 1]))
    case Lookup(w, views, at, ok) =>
      var k := s.workers[w];
      SetWorker(s, w, k.(stage := Producing(Fresh(k.batch, views, at, s.keys, ok), Dead(k.batch, views, at))))
    case ProduceClean(w, write) =>
      var k := s.workers[w];
      var s' := s.(clean := s.clean + Appended(k.stage.novel, write));
      SetWorker(s', w, if Fails(k.stage.novel, write) then Joined(s)
                       else k.(stage := DeadLettering(k.stage.novel, k.stage.dead)))
    case ProduceDlq(w, write) =>
      var k := s.workers[w];
      var s' := s.(dlq := s.dlq + Appended(k.stage.dead, write));
      SetWorker(s', w, if Fails(k.stage.dead, write) then Joined(s) else k.(stage := Marking(k.stage.novel)))
    case Mark(w, outcome) =>
      var k := s.workers[w];
      SetWorker(s.(keys := Marked(s.keys, k.stage.novel, outcome)), w, k.(stage := Committing))
    case Commit(w, reached) =>
      var k := s.workers[w];
      SetWorker(s.(committed := CommitOffsets(s.committed, k.batch, reached)), w, k.(batch := [], stage := Filling))
  }

  /** An action that is not enabled leaves the system alone, so every action list is a run. */
  function Next(s: System, a: Action): System {
    if Enabled(s, a) then Step(s, a) else s
  }

  function Exec(s: System, run: seq<Action>): System {
    if run == [] then s else Next(Exec(s, run[..|run| - 1]), run[|run| - 1])
  }

  /** What happens around the workers does happen: messages arrive, keys vanish, workers go back to the commit. */
  lemma {:induction false} EnvironmentActs(s: System, a: Action)
    requires Enabled(s, a)
    ensures a.Append? ==>
              && s.raw[a.p] < Step(s, a).raw[a.p] && |Step(s, a).raw[a.p]| == |s.raw[a.p]| + 1
              && Step(s, a).raw[a.p][|s.raw[a.p]|].payload == a.payload
    ensures a.Expire? ==> forall id :: id in Step(s, a).keys <==> id in s.keys && id != a.id
    ensures a.Restart? ==>
              Step(s, a).workers[a.w].pos == s.committed && Step(s, a).workers[a.w].batch == []
    ensures a.Assign? ==>
              && Step(s, a).workers[a.w].pos[a.p] == s.committed[a.p]
              && Step(s, a).workers[a.w].batch == s.workers[a.w].batch
  {
  }

  // ---------------------------------------------------------------------------------------
  // The invariant
  // ---------------------------------------------------------------------------------------

  predicate OnClean(clean: seq<CleanRow>, id: string) {
    exists i :: 0 <= i < |clean| && clean[i].event.eventId == id
  }

  predicate OnDlq(dlq: seq<DeadLetter>, payload: Payload) {
    exists i :: 0 <= i < |dlq| && dlq[i].payload == payload
  }

  /** The message has left the system durably: its id is published or its payload dead-lettered. */
  predicate Handled(s: System, m: Message) {
    || (m.payload.Json? && OnClean(s.clean, m.payload.event.eventId))
    || OnDlq(s.dlq, m.payload)
  }

  /** Everything of partition `p` below `bound` is handled or in hand. */
  predicate Covered(s: System, batch: seq<Message>, p: nat, bound: nat)
    requires p < |s.raw|
  {
    forall o | 0 <= o < bound && o < |s.raw[p]| :: Handled(s, s.raw[p][o]) || s.raw[p][o] in batch
  }

  predicate IsRaw(s: System, m: Message) {
    m.partition < |s.raw| && m.offset < |s.raw[m.partition]| && s.raw[m.partition][m.offset] == m
  }

  predicate StageInv(s: System, k: Worker) {
    match k.stage
    case Filling => true
    case Producing(novel, dead) =>
      forall m | m in k.batch ::
        || m.payload in Payloads(dead)
        || (m.payload.Json? && (m.payload.event.eventId in Ids(novel) || OnClean(s.clean, m.payload.event.eventId)))
    case DeadLettering(novel, dead) =>
      && (forall m | m in k.batch ::
            || m.payload in Payloads(dead)
            || (m.payload.Json? && OnClean(s.clean, m.payload.event.eventId)))
      && (forall id | id in Ids(novel) :: OnClean(s.clean, id))
    case Marking(novel) =>
      && (forall m | m in k.batch :: Handled(s, m))
      && (forall id | id in Ids(novel) :: OnClean(s.clean, id))
    case Committing =>
      forall m | m in k.batch :: Handled(s, m)
  }

  predicate WorkerInv(s: System, k: Worker) {
    && |k.pos| == |s.raw|
    && (forall p | 0 <= p < |s.raw| :: k.pos[p] <= |s.raw[p]| && Covered(s, k.batch, p, k.pos[p]))
    && (forall m | m in k.batch :: IsRaw(s, m) && Covered(s, k.batch, m.partition, m.offset))
    && StageInv(s, k)
  }

  predicate RawInv(s: System) {
    && |s.committed| == |s.raw|
    && (forall p, o | 0 <= p < |s.raw| && 0 <= o < |s.raw[p]| :: s.raw[p][o].partition == p && s.raw[p][o].offset == o)
    && (forall p | 0 <= p < |s.raw| :: s.committed[p] <= |s.raw[p]|)
  }

  /** Nothing below a committed offset was lost. */
  predicate NothingLost(s: System) {
    forall p, o | 0 <= p < |s.raw| && p < |s.committed| && 0 <= o < s.committed[p] && o < |s.raw[p]| ::
      Handled(s, s.raw[p][o])
  }

  /** A live dedup key vouches for an id that is already published. */
  predicate KeysBacked(s: System) {
    forall id | id in s.keys :: OnClean(s.clean, id)
  }

  predicate Inv(s: System) {
    && RawInv(s)
    && NothingLost(s)
    && KeysBacked(s)
    && (forall w | 0 <= w < |s.workers| :: WorkerInv(s, s.workers[w]))
  }

  // ---------------------------------------------------------------------------------------
  // Logs only grow, so whatever was established stays established
  // ---------------------------------------------------------------------------------------

  predicate Grows(s: System, t: System) {
    && s.clean <= t.clean
    && s.dlq <= t.dlq
    && |s.raw| == |t.raw|
    && (forall p | 0 <= p < |s.raw| :: s.raw[p] <= t.raw[p])
  }

  lemma {:induction false} HandledGrows(s: System, t: System, m: Message)
    requires Grows(s, t)
    ensures Handled(s, m) ==> Handled(t, m)
    ensures forall id | OnClean(s.clean, id) :: OnClean(t.clean, id)
  {
  }

  lemma {:induction false} WorkerInvGrows(s: System, t: System, k: Worker)
    requires Grows(s, t) && WorkerInv(s, k)
    ensures WorkerInv(t, k)
  {
    forall m: Message
      ensures Handled(s, m) ==> Handled(t, m)
      ensures forall id | OnClean(s.clean, id) :: OnClean(t.clean, id)
    {
      HandledGrows(s, t, m);
    }
    forall p | 0 <= p < |t.raw|
      ensures k.pos[p] <= |t.raw[p]| && Covered(t, k.batch, p, k.pos[p])
    {
      assert Covered(s, k.batch, p, k.pos[p]);
    }
    forall m | m in k.batch
      ensures IsRaw(t, m) && Covered(t, k.batch, m.partition, m.offset)
    {
      assert IsRaw(s, m) && Covered(s, k.batch, m.partition, m.offset);
    }
  }

  lemma {:induction false} OthersKeepInv(s: System, t: System, w: nat)
    requires Inv(s) && Grows(s, t)
    requires w < |s.workers| && |t.workers| == |s.workers|
    requires forall v | 0 <= v < |s.workers| && v != w :: t.workers[v] == s.workers[v]
    ensures forall v | 0 <= v < |t.workers| && v != w :: WorkerInv(t, t.workers[v])
  {
    forall v | 0 <= v < |t.workers| && v != w
      ensures WorkerInv(t, t.workers[v])
    {
      WorkerInvGrows(s, t, s.workers[v]);
    }
  }

  /** Logs growing without a new commit keep everything but the acting worker's own invariant. */
  lemma {:induction false} LogsKeepInv(s: System, t: System)
    requires Inv(s) && Grows(s, t) && t.committed == s.committed && t.raw == s.raw
    ensures RawInv(t) && NothingLost(t)
    ensures forall id | id in s.keys :: OnClean(t.clean, id)
  {
  }

  lemma {:induction false} JoinedInv(s: System)
    requires RawInv(s) && NothingLost(s)
    ensures WorkerInv(s, Joined(s))
  {
  }

  // ---------------------------------------------------------------------------------------
  // One lemma per step
  // ---------------------------------------------------------------------------------------

  lemma {:induction false} AppendKeepsInv(s: System, a: Action)
    requires Inv(s) && a.Append? && Enabled(s, a)
    ensures Inv(Step(s, a))
  {
    var t := Step(s, a);
    forall p, o | 0 <= p < |t.raw| && 0 <= o < t.committed[p] && o < |t.raw[p]|
      ensures Handled(t, t.raw[p][o])
    {
      assert Handled(s, s.raw[p][o]);
    }
    forall v | 0 <= v < |t.workers|
      ensures WorkerInv(t, t.workers[v])
    {
      AppendKeepsWorker(s, a, s.workers[v]);
    }
  }

  lemma {:induction false} AppendKeepsWorker(s: System, a: Action, k: Worker)
    requires RawInv(s) && WorkerInv(s, k) && a.Append? && Enabled(s, a)
    ensures WorkerInv(Step(s, a), k)
  {
    var t := Step(s, a);
    forall p | 0 <= p < |t.raw|
      ensures k.pos[p] <= |t.raw[p]| && Covered(t, k.batch, p, k.pos[p])
    {
      assert Covered(s, k.batch, p, k.pos[p]);
    }
    forall m | m in k.batch
      ensures IsRaw(t, m) && Covered(t, k.batch, m.partition, m.offset)
    {
      assert IsRaw(s, m) && Covered(s, k.batch, m.partition, m.offset);
    }
  }

  lemma {:induction false} FetchKeepsInv(s: System, a: Action)
    requires Inv(s) && a.Fetch? && Enabled(s, a)
    ensures Inv(Step(s, a))
  {
    var t := Step(s, a);
    OthersKeepInv(s, t, a.w);
    LogsKeepInv(s, t);
    FetchKeepsWorker(s, s.workers[a.w], a.p);
    WorkerInvGrows(s, t, t.workers[a.w]);
  }

  lemma {:induction false} FetchKeepsWorker(s: System, k: Worker, p: nat)
    requires RawInv(s) && WorkerInv(s, k) && k.stage.Filling? && p < |s.raw| && k.pos[p] < |s.raw[p]|
    ensures WorkerInv(s, k.(batch := k.batch + [s.raw[p][k.pos[p]]], pos := k.pos[p := k.pos[p] + 1]))
  {
    var m := s.raw[p][k.pos[p]];
    var batch, pos := k.batch + [m], k.pos[p := k.pos[p] + 1];
    assert forall x | x in k.batch :: x in batch;
    assert m in batch by { assert batch[|k.batch|] == m; }
    forall q | 0 <= q < |s.raw|
      ensures pos[q] <= |s.raw[q]| && Covered(s, batch, q, pos[q])
    {
      assert Covered(s, k.batch, q, k.pos[q]);
    }
    forall x | x in batch
      ensures IsRaw(s, x) && Covered(s, batch, x.partition, x.offset)
    {
      if x in k.batch {
        assert IsRaw(s, x) && Covered(s, k.batch, x.partition, x.offset);
      } else {
        assert Covered(s, k.batch, p, k.pos[p]);
      }
    }
  }

  lemma {:induction false} LookupKeepsInv(s: System, a: Action)
    requires Inv(s) && a.Lookup? && Enabled(s, a)
    ensures Inv(Step(s, a))
  {
    var t := Step(s, a);
    var k := s.workers[a.w];
    assert WorkerInv(s, k);
    OthersKeepInv(s, t, a.w);
    LogsKeepInv(s, t);
    FreshCoversBatch(k.batch, a.views, a.at, s.keys, a.ok);
    var k' := t.workers[a.w];
    WorkerInvGrows(s, t, k.(stage := Filling));
    assert StageInv(t, k') by {
      forall m | m in k'.batch
        ensures || m.payload in Payloads(k'.stage.dead)
                || (m.payload.Json? && (m.payload.event.eventId in Ids(k'.stage.novel)
                                        || OnClean(t.clean, m.payload.event.eventId)))
      {
        var i :| 0 <= i < |k.batch| && k.batch[i] == m;
      }
    }
  }

  lemma {:induction false} AppendedCovers<T>(items: seq<T>, write: Write)
    ensures !Fails(items, write) ==> items <= Appended(items, write)
    ensures forall x | x in Appended(items, write) :: x in items
  {
    LandedIsSome(items, write.landed);
  }

  lemma {:induction false} ProduceCleanKeepsInv(s: System, a: Action)
    requires Inv(s) && a.ProduceClean? && Enabled(s, a)
    ensures Inv(Step(s, a))
  {
    var t := Step(s, a);
    var k := s.workers[a.w];
    assert WorkerInv(s, k);
    OthersKeepInv(s, t, a.w);
    LogsKeepInv(s, t);
    if Fails(k.stage.novel, a.write) {
      JoinedInv(t);
    } else {
      WorkerInvGrows(s, t, k);
      AppendedCovers(k.stage.novel, a.write);
      forall id | id in Ids(k.stage.novel)
        ensures OnClean(t.clean, id)
      {
        var i :| 0 <= i < |k.stage.novel| && k.stage.novel[i].event.eventId == id;
        assert t.clean[|s.clean| + i] == k.stage.novel[i];
      }
      assert WorkerInv(t, t.workers[a.w]);
    }
  }

  lemma {:induction false} ProduceDlqKeepsInv(s: System, a: Action)
    requires Inv(s) && a.ProduceDlq? && Enabled(s, a)
    ensures Inv(Step(s, a))
  {
    var t := Step(s, a);
    var k := s.workers[a.w];
    assert WorkerInv(s, k);
    OthersKeepInv(s, t, a.w);
    LogsKeepInv(s, t);
    if Fails(k.stage.dead, a.write) {
      JoinedInv(t);
    } else {
      WorkerInvGrows(s, t, k);
      AppendedCovers(k.stage.dead, a.write);
      forall payload | payload in Payloads(k.stage.dead)
        ensures OnDlq(t.dlq, payload)
      {
        var i :| 0 <= i < |k.stage.dead| && k.stage.dead[i].payload == payload;
        assert t.dlq[|s.dlq| + i] == k.stage.dead[i];
      }
      assert WorkerInv(t, t.workers[a.w]);
    }
  }

  lemma {:induction false} MarkKeepsInv(s: System, a: Action)
    requires Inv(s) && a.Mark? && Enabled(s, a)
    ensures Inv(Step(s, a))
  {
    var t := Step(s, a);
    var k := s.workers[a.w];
    assert WorkerInv(s, k);
    OthersKeepInv(s, t, a.w);
    LogsKeepInv(s, t);
    WorkerInvGrows(s, t, k);
    assert WorkerInv(t, t.workers[a.w]);
  }

  lemma {:induction false} TopIsInBatch(batch: seq<Message>, p: nat)
    ensures Top(batch, p) > 0 ==> exists m | m in batch :: m.partition == p && m.offset + 1 == Top(batch, p)
  {
    if batch != [] {
      TopIsInBatch(batch[..|batch| - 1], p);
    }
  }

  /** Committing a batch never vouches for an offset that is not handled. */
  lemma {:induction false} CommitIsBacked(s: System, k: Worker, reached: set<nat>, p: nat)
    requires RawInv(s) && NothingLost(s) && WorkerInv(s, k) && k.stage.Committing? && p < |s.raw|
    ensures var c := CommitOffsets(s.committed, k.batch, reached)[p];
            c <= |s.raw[p]| && forall o | 0 <= o < c :: Handled(s, s.raw[p][o])
  {
    TopIsInBatch(k.batch, p);
    if p in reached && Top(k.batch, p) > 0 {
      var m :| m in k.batch && m.partition == p && m.offset + 1 == Top(k.batch, p);
      assert IsRaw(s, m) && Covered(s, k.batch, p, m.offset);
    }
  }

  lemma {:induction false} CommitKeepsInv(s: System, a: Action)
    requires Inv(s) && a.Commit? && Enabled(s, a)
    ensures Inv(Step(s, a))
  {
    var t := Step(s, a);
    var k := s.workers[a.w];
    assert WorkerInv(s, k);
    OthersKeepInv(s, t, a.w);
    assert forall m | Handled(s, m) :: Handled(t, m);
    forall p | 0 <= p < |t.raw|
      ensures t.committed[p] <= |t.raw[p]|
      ensures forall o | 0 <= o < t.committed[p] :: Handled(t, t.raw[p][o])
      ensures Covered(t, [], p, k.pos[p])
    {
      CommitIsBacked(s, k, a.reached, p);
      assert Covered(s, k.batch, p, k.pos[p]);
    }
    assert WorkerInv(t, t.workers[a.w]);
    assert KeysBacked(t);
  }

  lemma {:induction false} RestartKeepsInv(s: System, a: Action)
    requires Inv(s) && (a.Restart? || a.Assign? || a.Expire?) && Enabled(s, a)
    ensures Inv(Step(s, a))
  {
    var t := Step(s, a);
    LogsKeepInv(s, t);
    if a.Expire? {
      forall v | 0 <= v < |t.workers|
        ensures WorkerInv(t, t.workers[v])
      {
        WorkerInvGrows(s, t, s.workers[v]);
      }
    } else {
      OthersKeepInv(s, t, a.w);
      JoinedInv(t);
      if a.Assign? {
        WorkerInvGrows(s, t, s.workers[a.w]);
        assert WorkerInv(t, t.workers[a.w]);
      }
    }
  }

  lemma {:induction false} NextKeepsInv(s: System, a: Action)
    requires Inv(s)
    ensures Inv(Next(s, a))
  {
    if Enabled(s, a) {
      match a
      case Append(_, _, _, _) => AppendKeepsInv(s, a);
      case Fetch(_, _) => FetchKeepsInv(s, a);
      case Lookup(_, _, _, _) => LookupKeepsInv(s, a);
      case ProduceClean(_, _) => ProduceCleanKeepsInv(s, a);
      case ProduceDlq(_, _) => ProduceDlqKeepsInv(s, a);
      case Mark(_, _) => MarkKeepsInv(s, a);
      case Commit(_, _) => CommitKeepsInv(s, a);
      case _ => RestartKeepsInv(s, a);
    }
  }

  lemma {:induction false} RunKeepsInv(s: System, run: seq<Action>)
    requires Inv(s)
    ensures Inv(Exec(s, run))
  {
    if run != [] {
      RunKeepsInv(s, run[..|run| - 1]);
      NextKeepsInv(Exec(s, run[..|run| - 1]), run[|run| - 1]);
    }
  }

  /**
    At least once, over every run: whatever fails, crashes, is reassigned or expires, each raw
    message below a committed offset has its event id on the clean topic or its payload on the
    dead-letter topic, and a live dedup key never vouches for an unpublished id.
   */
  lemma {:induction false} NoLoss(partitions: nat, workers: nat, run: seq<Action>)
    ensures NothingLost(Exec(Init(partitions, workers), run))
    ensures KeysBacked(Exec(Init(partitions, workers), run))
  {
    RunKeepsInv(Init(partitions, workers), run);
  }

  // ---------------------------------------------------------------------------------------
  // The sequential flush is a run of the step system
  // ---------------------------------------------------------------------------------------

  /** The four stages of one worker's flush with nothing in between. */
  function FlushRun(w: nat, views: seq<View>, at: int, lookupOk: bool,
                    cleanWrite: Write, dlqWrite: Write, mark: MarkOutcome): seq<Action> {
    [Lookup(w, views, at, lookupOk), ProduceClean(w, cleanWrite), ProduceDlq(w, dlqWrite), Mark(w, mark)]
  }

  /**
    Run back to back, the stages leave the logs and keys exactly as AnalyticsHandler.Flush
    does, and a failed flush sends the worker back to the last commit.
   */
  lemma {:induction false} FlushIsARun(s: System, w: nat, views: seq<View>, at: int, lookupOk: bool,
                    cleanWrite: Write, dlqWrite: Write, mark: MarkOutcome)
    requires Enabled(s, Lookup(w, views, at, lookupOk))
    ensures var k := s.workers[w];
            var novel, dead := Fresh(k.batch, views, at, s.keys, lookupOk), Dead(k.batch, views, at);
            var failed := Fails(novel, cleanWrite) || Fails(dead, dlqWrite);
            Exec(s, FlushRun(w, views, at, lookupOk, cleanWrite, dlqWrite, mark)) == s.(
              clean := s.clean + Appended(novel, cleanWrite),
              dlq := s.dlq + (if Fails(novel, cleanWrite) then [] else Appended(dead, dlqWrite)),
              keys := if failed then s.keys else Marked(s.keys, novel, mark),
              workers := s.workers[w := if failed then Joined(s) else k.(stage := Committing)])
  {
    var k := s.workers[w];
    var novel, dead := Fresh(k.batch, views, at, s.keys, lookupOk), Dead(k.batch, views, at);
    ExecFour(s, Lookup(w, views, at, lookupOk), ProduceClean(w, cleanWrite), ProduceDlq(w, dlqWrite), Mark(w, mark));
    OutputStages(s, w, k.(stage := Producing(novel, dead)), cleanWrite, dlqWrite, mark);
  }

  lemma {:induction false} OutputStages(
    s: System, w: nat, k: Worker, cleanWrite: Write, dlqWrite: Write, mark: MarkOutcome)
    requires w < |s.workers| && k.stage.Producing?
    ensures var novel, dead := k.stage.novel, k.stage.dead;
            var failed := Fails(novel, cleanWrite) || Fails(dead, dlqWrite);
            Next(Next(Next(SetWorker(s, w, k), ProduceClean(w, cleanWrite)), ProduceDlq(w, dlqWrite)), Mark(w, mark))
            == s.(
              clean := s.clean + Appended(novel, cleanWrite),
              dlq := s.dlq + (if Fails(novel, cleanWrite) then [] else Appended(dead, dlqWrite)),
              keys := if failed then s.keys else Marked(s.keys, novel, mark),
              workers := s.workers[w := if failed then Joined(s) else k.(stage := Committing)])
  {
    var novel, dead := k.stage.novel, k.stage.dead;
    var s1 := s.(clean := s.clean + Appended(novel, cleanWrite));
    if Fails(novel, cleanWrite) {
      assert Next(SetWorker(s, w, k), ProduceClean(w, cleanWrite)) == SetWorker(s1, w, Joined(s));
      assert s.dlq + [] == s.dlq;
    } else {
      var k1 := k.(stage := DeadLettering(novel, dead));
      assert Next(SetWorker(s, w, k), ProduceClean(w, cleanWrite)) == SetWorker(s1, w, k1);
      LastStages(s1, w, k1, dlqWrite, mark);
    }
  }

  lemma {:induction false} LastStages(s: System, w: nat, k: Worker, dlqWrite: Write, mark: MarkOutcome)
    requires w < |s.workers| && k.stage.DeadLettering?
    ensures Next(Next(SetWorker(s, w, k), ProduceDlq(w, dlqWrite)), Mark(w, mark))
            == s.(
              dlq := s.dlq + Appended(k.stage.dead, dlqWrite),
              keys := if Fails(k.stage.dead, dlqWrite) then s.keys else Marked(s.keys, k.stage.novel, mark),
              workers := s.workers[w := if Fails(k.stage.dead, dlqWrite) then Joined(s) else k.(stage := Committing)])
  {
    var s1 := s.(dlq := s.dlq + Appended(k.stage.dead, dlqWrite));
    var k1 := if Fails(k.stage.dead, dlqWrite) then Joined(s) else k.(stage := Marking(k.stage.novel));
    assert Next(SetWorker(s, w, k), ProduceDlq(w, dlqWrite)) == SetWorker(s1, w, k1);
  }

  lemma {:induction false} ExecSnoc(s: System, run: seq<Action>, a: Action)
    ensures Exec(s, run + [a]) == Next(Exec(s, run), a)
  {
  }

  lemma {:induction false} ExecConcat(s: System, a: seq<Action>, b: seq<Action>)
    ensures Exec(s, a + b) == Exec(Exec(s, a), b)
  {
    if b == [] {
      assert a + b == a;
    } else {
      var n := |b| - 1;
      assert (a + b)[..|a + b| - 1] == a + b[..n];
      ExecConcat(s, a, b[..n]);
    }
  }

  lemma {:induction false} ExecFour(s: System, a: Action, b: Action, c: Action, d: Action)
    ensures Exec(s, [a, b, c, d]) == Next(Next(Next(Next(s, a), b), c), d)
  {
    ExecTwo(s, a, b);
    ExecTwo(Exec(s, [a, b]), c, d);
    ExecConcat(s, [a, b], [c, d]);
    assert [a, b] + [c, d] == [a, b, c, d];
  }

  lemma {:induction false} ExecTwo(s: System, a: Action, b: Action)
    ensures Exec(s, [a, b]) == Next(Next(s, a), b)
  {
    ExecSnoc(s, [], a);
    ExecSnoc(s, [a], b);
    assert [] + [a] == [a] && [a] + [b] == [a, b];
  }
}
