/**
  Every extra copy is paid for by a fault: with one active worker per partition, an event id
  appears on the clean topic at most once more than the number of faults that touched it.
 */
module CopyBound {
  import opened Events
  import opened Validation
  import opened Analytics
  import opened Delivery
  import opened EffectivelyOnce

  function Copies(rows: seq<CleanRow>, id: string): nat {
    if rows == [] then 0
    else Copies(rows[..|rows| - 1], id) + (if rows[|rows| - 1].event.eventId == id then 1 else 0)
  }

  /** The worker has looked `id` up, means to publish it and has not yet marked it. */
  predicate InFlight(k: Worker, id: string) {
    match k.stage
    case Producing(novel, _) => id in Ids(novel)
    case DeadLettering(novel, _) => id in Ids(novel)
    case Marking(novel) => id in Ids(novel)
    case _ => false
  }

  /**
    The faults of one action that touch `id`: a lookup that failed open, a failed produce, each
    copy left behind by the client's own retries, a crash between lookup and mark, a mark that
    did not reach the key, and the loss of a live key.
   */
  function FaultsOf(s: System, a: Action, id: string): nat
    requires Enabled(s, a)
  {
    match a
    case Lookup(w, views, at, ok) => if !ok && id in Ids(Valid(s.workers[w].batch, views, at)) then 1 else 0
    case ProduceClean(w, write) =>
      var novel := s.workers[w].stage.novel;
      var stray := Copies(Landed(novel, write.landed), id);
      if Fails(novel, write) && id in Ids(novel) && stray == 0 then 1 else stray
    case ProduceDlq(w, write) =>
      if Fails(s.workers[w].stage.dead, write) && id in Ids(s.workers[w].stage.novel) then 1 else 0
    case Mark(w, outcome) =>
      var novel := s.workers[w].stage.novel;
      if id in Ids(novel) && id !in Marked(s.keys, novel, outcome) then 1 else 0
    case Restart(w) => if InFlight(s.workers[w], id) then 1 else 0
    case Expire(x) => if x == id && id in s.keys then 1 else 0
    case _ => 0
  }

  function Faults(s: System, run: seq<Action>, id: string): nat {
    if run == [] then 0
    else
      var before := Exec(s, run[..|run| - 1]);
      var a := run[|run| - 1];
      Faults(s, run[..|run| - 1], id) + (if Enabled(before, a) then FaultsOf(before, a, id) else 0)
  }

  /** At most one worker holds messages of partition `p`. */
  predicate OneWorker(s: System, p: nat) {
    forall v, w | 0 <= v < w < |s.workers| ::
      !((exists m | m in s.workers[v].batch :: m.partition == p) && (exists m | m in s.workers[w].batch ::
          m.partition == p))
  }

  /** Every message with this id went to partition `p`, as station-keyed partitioning arranges. */
  predicate Homed(s: System, p: nat, id: string) {
    forall q, o | 0 <= q < |s.raw| && 0 <= o < |s.raw[q]| ::
      s.raw[q][o].payload.Json? && s.raw[q][o].payload.event.eventId == id ==> q == p
  }

  predicate Orderly(s: System, run: seq<Action>, p: nat, id: string) {
    forall k | 0 <= k <= |run| :: OneWorker(Exec(s, run[..k]), p) && Homed(Exec(s, run[..k]), p, id)
  }

  // ---------------------------------------------------------------------------------------
  // Shape of what is in flight
  // ---------------------------------------------------------------------------------------

  predicate RowsFromBatch(rows: seq<CleanRow>, batch: seq<Message>) {
    && DistinctIds(rows)
    && (forall r | r in rows :: exists m | m in batch :: m.payload == Json(r.event))
  }

  predicate FlightInv(k: Worker) {
    match k.stage
    case Producing(novel, _) => RowsFromBatch(novel, k.batch)
    case DeadLettering(novel, _) => RowsFromBatch(novel, k.batch)
    case Marking(novel) => RowsFromBatch(novel, k.batch)
    case _ => true
  }

  predicate FlightsInv(s: System) {
    forall w | 0 <= w < |s.workers| :: FlightInv(s.workers[w])
  }

  lemma {:induction false} LookupFlight(k: Worker, views: seq<View>, at: int, keys: set<string>, ok: bool)
    requires |views| == |k.batch|
    ensures RowsFromBatch(Fresh(k.batch, views, at, keys, ok), k.batch)
  {
    FreshCoversBatch(k.batch, views, at, keys, ok);
    forall r | r in Fresh(k.batch, views, at, keys, ok)
      ensures exists m | m in k.batch :: m.payload == Json(r.event)
    {
      var i :| 0 <= i < |k.batch| && Judge(k.batch[i].payload, views[i]).Accepted?
          && k.batch[i].payload == Json(r.event);
      assert k.batch[i] in k.batch;
    }
  }

  lemma {:induction false} NextKeepsFlights(s: System, a: Action)
    requires FlightsInv(s)
    ensures FlightsInv(Next(s, a))
  {
    if Enabled(s, a) {
      match a
      case Lookup(w, views, at, ok) =>
        LookupFlight(s.workers[w], views, at, s.keys, ok);
      case _ =>
    }
  }

  /** With one worker on its home partition, an id is in flight at most once. */
  lemma {:induction false} SoleFlight(s: System, p: nat, id: string, v: nat, w: nat)
    requires Inv(s) && FlightsInv(s) && OneWorker(s, p) && Homed(s, p, id)
    requires v < |s.workers| && w < |s.workers| && v != w
    ensures !(InFlight(s.workers[v], id) && InFlight(s.workers[w], id))
  {
    if InFlight(s.workers[v], id) && InFlight(s.workers[w], id) {
      FlightHoldsHome(s, p, id, v);
      FlightHoldsHome(s, p, id, w);
    }
  }

  lemma {:induction false} FlightHoldsHome(s: System, p: nat, id: string, w: nat)
    requires Inv(s) && FlightsInv(s) && Homed(s, p, id)
    requires w < |s.workers| && InFlight(s.workers[w], id)
    ensures exists m | m in s.workers[w].batch :: m.partition == p
  {
  }

  // ---------------------------------------------------------------------------------------
  // Counting copies
  // ---------------------------------------------------------------------------------------

  lemma {:induction false} CopiesConcat(a: seq<CleanRow>, b: seq<CleanRow>, id: string)
    ensures Copies(a + b, id) == Copies(a, id) + Copies(b, id)
  {
    if b == [] {
      assert a + b == a;
    } else {
      assert (a + b)[..|a + b| - 1] == a + b[..|b| - 1];
      CopiesConcat(a, b[..|b| - 1], id);
    }
  }

  lemma {:induction false} CopiesOfDistinct(rows: seq<CleanRow>, id: string)
    requires DistinctIds(rows)
    ensures Copies(rows, id) == if id in Ids(rows) then 1 else 0
  {
    if rows != [] {
      var n := |rows| - 1;
      CopiesOfDistinct(rows[..n], id);
      IdsSnoc(rows[..n], rows[n]);
      assert rows == rows[..n] + [rows[n]];
      forall i | 0 <= i < n
        ensures rows[..n][i].event.eventId != rows[n].event.eventId
      {
        assert rows[..n][i] == rows[i];
      }
    }
  }

  lemma {:induction false} CopiesOfAbsent(rows: seq<CleanRow>, id: string)
    ensures Copies(rows, id) > 0 <==> OnClean(rows, id)
  {
    if rows != [] {
      var n := |rows| - 1;
      CopiesOfAbsent(rows[..n], id);
      if OnClean(rows[..n], id) {
        var i :| 0 <= i < n && rows[..n][i].event.eventId == id;
        assert rows[i].event.eventId == id;
      }
      if OnClean(rows, id) && rows[n].event.eventId != id {
        var i :| 0 <= i < |rows| && rows[i].event.eventId == id;
        assert rows[..n][i].event.eventId == id;
      }
    }
  }

  /**
    `faults` pays for the copies so far: for one more when the id is protected (marked, or past
    its produce), and for none more when it is about to be produced or can be looked up afresh.
   */
  predicate Paid(s: System, id: string, faults: nat) {
    && Copies(s.clean, id) <= 1 + faults
    && ((id !in s.keys && forall w | 0 <= w < |s.workers| :: !InFlight(s.workers[w], id))
        ==> Copies(s.clean, id) <= faults)
    && ((exists w | 0 <= w < |s.workers| :: s.workers[w].stage.Producing? && InFlight(s.workers[w], id))
        ==> Copies(s.clean, id) <= faults)
  }

  lemma {:induction false} ProduceCounts(novel: seq<CleanRow>, write: Write, id: string)
    requires DistinctIds(novel)
    ensures var stray := Copies(Landed(novel, write.landed), id);
            Copies(Appended(novel, write), id)
            == stray + (if !Fails(novel, write) && id in Ids(novel) then 1 else 0)
    ensures id !in Ids(novel) ==> Copies(Landed(novel, write.landed), id) == 0
  {
    CopiesOfDistinct(novel, id);
    CopiesConcat(novel, Landed(novel, write.landed), id);
    LandedIsSome(novel, write.landed);
    CopiesOfAbsent(Landed(novel, write.landed), id);
    if OnClean(Landed(novel, write.landed), id) {
      var i :| 0 <= i < |Landed(novel, write.landed)| && Landed(novel, write.landed)[i].event.eventId == id;
      assert Landed(novel, write.landed)[i] in novel;
    }
  }

  predicate SoleFlights(s: System, id: string) {
    forall v, w | 0 <= v < w < |s.workers| :: !(InFlight(s.workers[v], id) && InFlight(s.workers[w], id))
  }

  /** Workers other than `w` are as they were. */
  predicate SameOthers(s: System, t: System, w: nat) {
    && w < |s.workers| && |t.workers| == |s.workers|
    && forall v | 0 <= v < |s.workers| && v != w :: t.workers[v] == s.workers[v]
  }

  lemma {:induction false} LookupPays(s: System, a: Action, id: string, faults: nat)
    requires a.Lookup? && Enabled(s, a) && SoleFlights(Step(s, a), id) && Paid(s, id, faults)
    ensures Paid(Step(s, a), id, faults + FaultsOf(s, a, id))
  {
    var t, k := Step(s, a), s.workers[a.w];
    assert SameOthers(s, t, a.w);
    var valid := Valid(k.batch, a.views, a.at);
    FreshCoversBatch(k.batch, a.views, a.at, s.keys, a.ok);
    UniqueKeepsIds(valid);
    UnseenKeepsIds(Unique(valid), if a.ok then s.keys else {});
    if InFlight(t.workers[a.w], id) && a.ok {
      forall v | 0 <= v < |s.workers|
        ensures !InFlight(s.workers[v], id)
      {
        assert v != a.w ==> t.workers[v] == s.workers[v];
      }
    }
    if !InFlight(t.workers[a.w], id) {
      FlightElsewhere(s, t, a.w, id);
    }
  }

  /** When `w` neither was nor is in flight with `id`, flights are elsewhere and unchanged. */
  lemma {:induction false} FlightElsewhere(s: System, t: System, w: nat, id: string)
    requires SameOthers(s, t, w) && !InFlight(s.workers[w], id) && !InFlight(t.workers[w], id)
    ensures (forall v | 0 <= v < |s.workers| :: !InFlight(s.workers[v], id))
            <==> (forall v | 0 <= v < |t.workers| :: !InFlight(t.workers[v], id))
    ensures (exists v | 0 <= v < |t.workers| :: t.workers[v].stage.Producing? && InFlight(t.workers[v], id))
            ==> (exists v | 0 <= v < |s.workers| :: s.workers[v].stage.Producing? && InFlight(s.workers[v], id))
  {
  }

  /** The only flight is `w`'s, so nothing else is being produced. */
  lemma {:induction false} FlightIsHere(s: System, t: System, w: nat, id: string)
    requires SameOthers(s, t, w) && InFlight(s.workers[w], id) && SoleFlights(s, id)
    ensures forall v | 0 <= v < |t.workers| && v != w :: !InFlight(t.workers[v], id)
  {
  }

  lemma {:induction false} StagePays(s: System, a: Action, id: string, faults: nat)
    requires a.ProduceClean? || a.ProduceDlq? || a.Mark? || a.Restart?
    requires Enabled(s, a) && FlightsInv(s) && SoleFlights(s, id) && Paid(s, id, faults)
    ensures Paid(Step(s, a), id, faults + FaultsOf(s, a, id))
  {
    var t, k := Step(s, a), s.workers[a.w];
    assert FlightInv(k);
    assert SameOthers(s, t, a.w);
    if a.ProduceClean? {
      ProduceCounts(k.stage.novel, a.write, id);
      CopiesConcat(s.clean, Appended(k.stage.novel, a.write), id);
    }
    if InFlight(k, id) {
      FlightIsHere(s, t, a.w, id);
      assert k.stage.Producing? ==> Copies(s.clean, id) <= faults;
      var k' := t.workers[a.w];
      assert InFlight(k', id) || k'.stage.Filling? || k'.stage.Committing?;
    } else {
      FlightElsewhere(s, t, a.w, id);
    }
  }

  lemma {:induction false} QuietPays(s: System, a: Action, id: string, faults: nat)
    requires a.Append? || a.Assign? || a.Fetch? || a.Commit? || a.Expire?
    requires Enabled(s, a) && Paid(s, id, faults)
    ensures Paid(Step(s, a), id, faults + FaultsOf(s, a, id))
  {
    var t := Step(s, a);
    assert t.clean == s.clean && |t.workers| == |s.workers|;
    forall v | 0 <= v < |s.workers|
      ensures InFlight(t.workers[v], id) == InFlight(s.workers[v], id)
      ensures InFlight(t.workers[v], id) ==> t.workers[v].stage == s.workers[v].stage
    {
    }
  }

  lemma {:induction false} RunPays(partitions: nat, workers: nat, run: seq<Action>, p: nat, id: string)
    requires Orderly(Init(partitions, workers), run, p, id)
    ensures var s0 := Init(partitions, workers);
            && FlightsInv(Exec(s0, run))
            && Paid(Exec(s0, run), id, Faults(s0, run, id))
  {
    var s0 := Init(partitions, workers);
    if run != [] {
      var n := |run| - 1;
      var s, a := Exec(s0, run[..n]), run[n];
      forall k | 0 <= k <= n
        ensures OneWorker(Exec(s0, run[..n][..k]), p) && Homed(Exec(s0, run[..n][..k]), p, id)
      {
        assert run[..n][..k] == run[..k];
      }
      RunPays(partitions, workers, run[..n], p, id);
      NextKeepsFlights(s, a);
      assert run[..n + 1] == run;
      FlightsAreSole(partitions, workers, run[..n], p, id);
      FlightsAreSole(partitions, workers, run, p, id);
      if Enabled(s, a) {
        if a.Lookup? {
          LookupPays(s, a, id, Faults(s0, run[..n], id));
        } else if a.ProduceClean? || a.ProduceDlq? || a.Mark? || a.Restart? {
          StagePays(s, a, id, Faults(s0, run[..n], id));
        } else {
          QuietPays(s, a, id, Faults(s0, run[..n], id));
        }
      }
    }
  }

  lemma {:induction false} FlightsAreSole(partitions: nat, workers: nat, run: seq<Action>, p: nat, id: string)
    requires OneWorker(Exec(Init(partitions, workers), run), p) && Homed(Exec(Init(partitions, workers), run), p, id)
    requires FlightsInv(Exec(Init(partitions, workers), run))
    ensures SoleFlights(Exec(Init(partitions, workers), run), id)
  {
    var s := Exec(Init(partitions, workers), run);
    RunKeepsInv(Init(partitions, workers), run);
    forall v, w | 0 <= v < w < |s.workers|
      ensures !(InFlight(s.workers[v], id) && InFlight(s.workers[w], id))
    {
      SoleFlight(s, p, id, v, w);
    }
  }

  /** Over every orderly run, copies on the clean topic <= 1 + faults that touched the id. */
  lemma {:induction false} CopiesArePaidFor(partitions: nat, workers: nat, run: seq<Action>, p: nat, id: string)
    requires Orderly(Init(partitions, workers), run, p, id)
    ensures Copies(Exec(Init(partitions, workers), run).clean, id) <= 1 + Faults(Init(partitions, workers), run, id)
  {
    RunPays(partitions, workers, run, p, id);
  }

  /** Without faults, the id of a committed event the registry accepts is published exactly once. */
  lemma {:induction false} FaultFreeIsExactlyOnce(
    partitions: nat, workers: nat, run: seq<Action>, p: nat, view: View, e: Event)
    requires Orderly(Init(partitions, workers), run, p, e.eventId)
    requires Faults(Init(partitions, workers), run, e.eventId) == 0
    requires FixedView(run, view)
    requires CommittedEvent(Exec(Init(partitions, workers), run), e) && Validate(e, view).Accepted?
    ensures Copies(Exec(Init(partitions, workers), run).clean, e.eventId) == 1
  {
    CopiesArePaidFor(partitions, workers, run, p, e.eventId);
    IdIsPublished(partitions, workers, run, view, e);
    CopiesOfAbsent(Exec(Init(partitions, workers), run).clean, e.eventId);
  }
}
