/**
  Effectively once, end to end: raw log -> at-least-once delivery -> clean topic ->
  ReplacingMergeTree -> FINAL, for a fixed registry and re-sends that repeat the event.
 */
module EffectivelyOnce {
  import opened Events
  import opened Validation
  import opened Analytics
  import opened Delivery
  import opened ReplacingStore

  /** The registry never refreshes during the run. */
  predicate FixedView(run: seq<Action>, view: View) {
    forall a | a in run && a.Lookup? :: forall v | v in a.views :: v == view
  }

  /** The event is the payload of some raw message. */
  predicate Sent(s: System, e: Event) {
    exists p, o :: 0 <= p < |s.raw| && 0 <= o < |s.raw[p]| && s.raw[p][o].payload == Json(e)
  }

  predicate Genuine(s: System, e: Event, view: View) {
    Sent(s, e) && Validate(e, view).Accepted?
  }

  predicate RowsGenuine(s: System, rows: seq<CleanRow>, view: View) {
    forall r | r in rows :: Genuine(s, r.event, view)
  }

  predicate LettersRejected(dead: seq<DeadLetter>, view: View) {
    forall d | d in dead :: Judge(d.payload, view).Rejected?
  }

  predicate StageGenuine(s: System, stage: Stage, view: View) {
    match stage
    case Producing(novel, dead) => RowsGenuine(s, novel, view) && LettersRejected(dead, view)
    case DeadLettering(novel, dead) => RowsGenuine(s, novel, view) && LettersRejected(dead, view)
    case Marking(novel) => RowsGenuine(s, novel, view)
    case _ => true
  }

  /** Only what was sent and accepted is published; only what was rejected is dead-lettered. */
  predicate Provenance(s: System, view: View) {
    && RowsGenuine(s, s.clean, view)
    && LettersRejected(s.dlq, view)
    && (forall w | 0 <= w < |s.workers| :: StageGenuine(s, s.workers[w].stage, view))
  }

  lemma {:induction false} SentGrows(s: System, a: Action, e: Event)
    requires Enabled(s, a) && Sent(s, e)
    ensures Sent(Step(s, a), e)
  {
    var p, o :| 0 <= p < |s.raw| && 0 <= o < |s.raw[p]| && s.raw[p][o].payload == Json(e);
    var t := Step(s, a);
    assert t.raw[p][o] == s.raw[p][o];
  }

  lemma {:induction false} StagesStayGenuine(s: System, a: Action, view: View)
    requires Enabled(s, a) && Provenance(s, view)
    ensures RowsGenuine(Step(s, a), s.clean, view)
    ensures forall w | 0 <= w < |s.workers| :: StageGenuine(Step(s, a), s.workers[w].stage, view)
  {
    forall e | Sent(s, e)
      ensures Sent(Step(s, a), e)
    {
      SentGrows(s, a, e);
    }
    forall w | 0 <= w < |s.workers|
      ensures StageGenuine(Step(s, a), s.workers[w].stage, view)
    {
      assert StageGenuine(s, s.workers[w].stage, view);
    }
  }

  lemma {:induction false} LookupIsGenuine(s: System, a: Action, view: View)
    requires Inv(s) && a.Lookup? && Enabled(s, a)
    requires forall v | v in a.views :: v == view
    ensures StageGenuine(s, Step(s, a).workers[a.w].stage, view)
  {
    var k := s.workers[a.w];
    assert WorkerInv(s, k);
    FreshCoversBatch(k.batch, a.views, a.at, s.keys, a.ok);
    RoutingIsSound(k.batch, a.views, a.at);
    var stage := Step(s, a).workers[a.w].stage;
    forall r | r in stage.novel
      ensures Genuine(s, r.event, view)
    {
      var i :| 0 <= i < |k.batch| && Judge(k.batch[i].payload, a.views[i]).Accepted?
          && k.batch[i].payload == Json(r.event);
      assert a.views[i] in a.views;
      assert IsRaw(s, k.batch[i]);
    }
    forall d | d in stage.dead
      ensures Judge(d.payload, view).Rejected?
    {
      var i :| 0 <= i < |k.batch| && Judge(k.batch[i].payload, a.views[i]).Rejected? && k.batch[i].payload == d.payload;
      assert a.views[i] in a.views;
    }
  }

  lemma {:induction false} NextKeepsProvenance(s: System, a: Action, view: View)
    requires Inv(s) && Provenance(s, view)
    requires a.Lookup? ==> forall v | v in a.views :: v == view
    ensures Provenance(Next(s, a), view)
  {
    if Enabled(s, a) {
      var t := Step(s, a);
      StagesStayGenuine(s, a, view);
      match a
      case Lookup(w, _, _, _) =>
        LookupIsGenuine(s, a, view);
        assert t.raw == s.raw;
      case ProduceClean(w, write) =>
        assert StageGenuine(t, s.workers[w].stage, view);
        AppendedCovers(s.workers[w].stage.novel, write);
      case ProduceDlq(w, write) =>
        assert StageGenuine(t, s.workers[w].stage, view);
        AppendedCovers(s.workers[w].stage.dead, write);
      case _ =>
    }
  }

  lemma {:induction false} RunKeepsProvenance(partitions: nat, workers: nat, run: seq<Action>, view: View)
    requires FixedView(run, view)
    ensures Provenance(Exec(Init(partitions, workers), run), view)
  {
    if run != [] {
      var n := |run| - 1;
      assert forall a | a in run[..n] :: a in run;
      RunKeepsProvenance(partitions, workers, run[..n], view);
      RunKeepsInv(Init(partitions, workers), run[..n]);
      NextKeepsProvenance(Exec(Init(partitions, workers), run[..n]), run[n], view);
    }
  }

  /** Re-sends of an acceptable event repeat it: among those sent and accepted, one id, one event. */
  ghost predicate ResendsIdentical(s: System, view: View) {
    forall e, f | Genuine(s, e, view) && Genuine(s, f, view) && e.eventId == f.eventId :: e == f
  }

  predicate CommittedEvent(s: System, e: Event) {
    exists p, o :: 0 <= p < |s.raw| && p < |s.committed| && 0 <= o < s.committed[p] && o < |s.raw[p]|
                   && s.raw[p][o].payload == Json(e)
  }

  /** The id of a committed event that the registry accepts is on the clean topic. */
  lemma {:induction false} IdIsPublished(partitions: nat, workers: nat, run: seq<Action>, view: View, e: Event)
    requires FixedView(run, view)
    requires CommittedEvent(Exec(Init(partitions, workers), run), e) && Validate(e, view).Accepted?
    ensures OnClean(Exec(Init(partitions, workers), run).clean, e.eventId)
    ensures Sent(Exec(Init(partitions, workers), run), e)
  {
    var s := Exec(Init(partitions, workers), run);
    NoLoss(partitions, workers, run);
    RunKeepsProvenance(partitions, workers, run, view);
    var p, o :| 0 <= p < |s.raw| && p < |s.committed| && 0 <= o < s.committed[p] && o < |s.raw[p]|
                && s.raw[p][o].payload == Json(e);
    assert Handled(s, s.raw[p][o]);
    forall i | 0 <= i < |s.dlq|
      ensures s.dlq[i].payload != Json(e)
    {
      assert s.dlq[i] in s.dlq;
    }
  }

  /** With identical re-sends the event itself is on the clean topic, not just its id. */
  lemma {:induction false} CommittedIsPublished(partitions: nat, workers: nat, run: seq<Action>, view: View, e: Event)
    requires FixedView(run, view)
    requires ResendsIdentical(Exec(Init(partitions, workers), run), view)
    requires CommittedEvent(Exec(Init(partitions, workers), run), e) && Validate(e, view).Accepted?
    ensures exists r | r in Exec(Init(partitions, workers), run).clean :: r.event == e
  {
    var s := Exec(Init(partitions, workers), run);
    IdIsPublished(partitions, workers, run, view, e);
    RunKeepsProvenance(partitions, workers, run, view);
    var i :| 0 <= i < |s.clean| && s.clean[i].event.eventId == e.eventId;
    assert s.clean[i] in s.clean;
    assert Genuine(s, s.clean[i].event, view) && Genuine(s, e, view);
  }

  /** Every committed event that the registry accepts has a row. */
  ghost predicate CommittedShows(s: System, rows: seq<CleanRow>, view: View) {
    forall e | CommittedEvent(s, e) && Validate(e, view).Accepted? :: exists i :: 0 <= i < |rows| && rows[i].event == e
  }

  /** One row for every committed valid event, no id twice, and no row that nobody sent. */
  ghost predicate ShowsExactly(s: System, rows: seq<CleanRow>, view: View) {
    && CommittedShows(s, rows, view)
    && (forall i, j | 0 <= i < j < |rows| :: rows[i].event.eventId != rows[j].event.eventId)
    && RowsGenuine(s, rows, view)
  }

  /**
    Effectively once: after any run of the processor and any inserts and merges of the landing
    table, in whatever order and with whatever repeats, once the table has caught up with the
    clean topic, FINAL returns exactly one row for every committed valid event, and every row it
    returns is an accepted event somebody sent.
   */
  lemma {:induction false} ExactlyOneRowPerEvent(
    partitions: nat, workers: nat, run: seq<Action>, view: View, steps: seq<TableStep>)
    requires FixedView(run, view)
    requires ResendsIdentical(Exec(Init(partitions, workers), run), view)
    requires CaughtUp(TableRun(steps), Exec(Init(partitions, workers), run).clean)
    ensures ShowsExactly(Exec(Init(partitions, workers), run), FinalRows(TableRun(steps).rows), view)
  {
    MergesAreInvisible(steps);
    CaughtUpTableIsExact(partitions, workers, run, view, TableRun(steps));
  }

  lemma {:induction false} CaughtUpTableIsExact(partitions: nat, workers: nat, run: seq<Action>, view: View, t: Table)
    requires FixedView(run, view)
    requires ResendsIdentical(Exec(Init(partitions, workers), run), view)
    requires Merged(t) && CaughtUp(t, Exec(Init(partitions, workers), run).clean)
    ensures ShowsExactly(Exec(Init(partitions, workers), run), FinalRows(t.rows), view)
  {
    var s := Exec(Init(partitions, workers), run);
    RunKeepsProvenance(partitions, workers, run, view);
    FinalRowsEnumerate(t.rows);
    AllCommittedArePublished(partitions, workers, run, view);
    FinalIsExact(s, t, FinalRows(t.rows), view);
  }

  lemma {:induction false} AllCommittedArePublished(partitions: nat, workers: nat, run: seq<Action>, view: View)
    requires FixedView(run, view)
    requires ResendsIdentical(Exec(Init(partitions, workers), run), view)
    ensures CommittedShows(Exec(Init(partitions, workers), run), Exec(Init(partitions, workers), run).clean, view)
  {
    var s := Exec(Init(partitions, workers), run);
    forall e | CommittedEvent(s, e) && Validate(e, view).Accepted?
      ensures exists i :: 0 <= i < |s.clean| && s.clean[i].event == e
    {
      CommittedIsPublished(partitions, workers, run, view, e);
    }
  }

  lemma {:induction false} FinalIsExact(s: System, t: Table, final: seq<CleanRow>, view: View)
    requires RowsGenuine(s, s.clean, view) && ResendsIdentical(s, view)
    requires CaughtUp(t, s.clean) && Enumerates(final, Final(t.inserted))
    requires CommittedShows(s, s.clean, view)
    ensures ShowsExactly(s, final, view)
  {
    FinalIsGenuine(s, t, final, view);
    forall e | CommittedEvent(s, e) && Validate(e, view).Accepted?
      ensures exists i :: 0 <= i < |final| && final[i].event == e
    {
      var i :| 0 <= i < |s.clean| && s.clean[i].event == e;
      assert s.clean[i] in s.clean;
      FinalShows(s, t, final, view, s.clean[i]);
    }
  }

  lemma {:induction false} FinalIsGenuine(s: System, t: Table, final: seq<CleanRow>, view: View)
    requires RowsGenuine(s, s.clean, view) && ResendsIdentical(s, view)
    requires CaughtUp(t, s.clean) && Enumerates(final, Final(t.inserted))
    ensures RowsGenuine(s, final, view)
    ensures forall i, j | 0 <= i < j < |final| :: final[i].event.eventId != final[j].event.eventId
  {
    FinalDominates(t.inserted);
    forall r | r in final
      ensures r in s.clean
    {
      assert Final(t.inserted)[Key(r)] == r;
    }
    forall i, j | 0 <= i < j < |final|
      ensures final[i].event.eventId != final[j].event.eventId
    {
      assert final[i] in final && final[j] in final;
      assert Genuine(s, final[i].event, view) && Genuine(s, final[j].event, view);
      assert Key(final[i]) != Key(final[j]);
    }
  }

  lemma {:induction false} FinalShows(s: System, t: Table, final: seq<CleanRow>, view: View, r: CleanRow)
    requires RowsGenuine(s, s.clean, view) && ResendsIdentical(s, view)
    requires CaughtUp(t, s.clean) && Enumerates(final, Final(t.inserted)) && r in s.clean
    ensures exists i :: 0 <= i < |final| && final[i].event == r.event
  {
    FinalDominates(t.inserted);
    var survivor := Final(t.inserted)[Key(r)];
    assert survivor in final && survivor in s.clean;
    assert Genuine(s, survivor.event, view) && Genuine(s, r.event, view);
    var i :| 0 <= i < |final| && final[i] == survivor;
  }

  // ---------------------------------------------------------------------------------------
  // Why re-sends must repeat the event
  // ---------------------------------------------------------------------------------------

  function ReuseRun(view: View, e: Event, f: Event): seq<Action> {
    [Append(0, "", Json(e), 0), Append(0, "", Json(f), 0), Fetch(0, 0), Fetch(0, 0)]
    + FlushRun(0, [view, view], 0, true, Write(true, []), Write(true, []), AllMarked)
    + [Commit(0, {0})]
  }

  lemma {:induction false} ReuseIsDropped(view: View, m: Message, n: Message)
    requires m.payload.Json? && n.payload.Json? && m.payload.event.eventId == n.payload.event.eventId
    requires Judge(m.payload, view).Accepted? && Judge(n.payload, view).Accepted?
    ensures Fresh([m, n], [view, view], 0, {}, true) == [CleanRow(m.payload.event, 0, m.time)]
    ensures Dead([m, n], [view, view], 0) == []
  {
    var r, x := CleanRow(m.payload.event, 0, m.time), CleanRow(n.payload.event, 0, n.time);
    BothValid(view, m, n);
    assert [r, x][..1] == [r] && [r][..0] == [];
    assert [r][0].event.eventId in Ids([r]);
    assert Unique([r]) == [r];
    assert Unique([r, x]) == [r];
    assert Unseen([r], {}) == [r];
  }

  lemma {:induction false} BothValid(view: View, m: Message, n: Message)
    requires Judge(m.payload, view).Accepted? && Judge(n.payload, view).Accepted?
    ensures Valid([m, n], [view, view], 0) == [CleanRow(m.payload.event, 0, m.time), CleanRow(n.payload.event, 0,
        n.time)]
    ensures Dead([m, n], [view, view], 0) == []
  {
    assert [m, n][..1] == [m] && [view, view][..1] == [view] && [m][..0] == [] && [view][..0] == [];
    assert Valid([m], [view], 0) == [CleanRow(m.payload.event, 0, m.time)];
    assert Dead([m], [view], 0) == [];
  }

  /**
    For any two different acceptable events with one id there is a fault-free run that commits
    both and publishes only the first: the hypothesis of the theorems above cannot be dropped.
   */
  lemma {:induction false} ReusedIdLosesEvent(view: View, e: Event, f: Event)
    requires e != f && e.eventId == f.eventId
    requires Validate(e, view).Accepted? && Validate(f, view).Accepted?
    ensures FixedView(ReuseRun(view, e, f), view)
    ensures CommittedEvent(Exec(Init(1, 1), ReuseRun(view, e, f)), f)
    ensures !exists r :: r in Exec(Init(1, 1), ReuseRun(view, e, f)).clean && r.event == f
  {
    var m, n := Message(0, 0, "", Json(e), 0), Message(0, 1, "", Json(f), 0);
    ReuseIsDropped(view, m, n);
    ReuseRunEnds(view, e, f);
    var s := Exec(Init(1, 1), ReuseRun(view, e, f));
    assert s.raw[0][1].payload == Json(f);
  }

  lemma {:induction false} ReuseRunEnds(view: View, e: Event, f: Event)
    requires var m, n := Message(0, 0, "", Json(e), 0), Message(0, 1, "", Json(f), 0);
             && Fresh([m, n], [view, view], 0, {}, true) == [CleanRow(e, 0, 0)]
             && Dead([m, n], [view, view], 0) == []
    ensures var m, n := Message(0, 0, "", Json(e), 0), Message(0, 1, "", Json(f), 0);
            var s := Exec(Init(1, 1), ReuseRun(view, e, f));
            s.raw == [[m, n]] && s.committed == [2] && s.clean == [CleanRow(e, 0, 0)]
  {
    var m, n := Message(0, 0, "", Json(e), 0), Message(0, 1, "", Json(f), 0);
    var fetched := System([[m, n]], [0], [Worker([2], [m, n], Filling)], {}, [], []);
    var first4 := [Append(0, "", Json(e), 0), Append(0, "", Json(f), 0), Fetch(0, 0), Fetch(0, 0)];
    var flush := FlushRun(0, [view, view], 0, true, Write(true, []), Write(true, []), AllMarked);
    FetchBoth(e, f);
    ExecConcat(Init(1, 1), first4, flush);
    ExecSnoc(Init(1, 1), first4 + flush, Commit(0, {0}));
    var flushed := FlushBoth(view, fetched, m, n);
    CommitBoth(flushed, m, n);
  }

  lemma {:induction false} FlushBoth(view: View, s: System, m: Message, n: Message) returns (t: System)
    requires s == System([[m, n]], [0], [Worker([2], [m, n], Filling)], {}, [], [])
    requires m.payload.Json? && Fresh([m, n], [view, view], 0, {}, true) == [CleanRow(m.payload.event, 0, m.time)]
    requires Dead([m, n], [view, view], 0) == []
    ensures t == Exec(s, FlushRun(0, [view, view], 0, true, Write(true, []), Write(true, []), AllMarked))
    ensures t.clean == [CleanRow(m.payload.event, 0, m.time)] && t.raw == s.raw && t.committed == s.committed
    ensures t.workers == [Worker([2], [m, n], Committing)]
  {
    FlushIsARun(s, 0, [view, view], 0, true, Write(true, []), Write(true, []), AllMarked);
    t := Exec(s, FlushRun(0, [view, view], 0, true, Write(true, []), Write(true, []), AllMarked));
    var r := CleanRow(m.payload.event, 0, m.time);
    assert Appended([r], Write(true, [])) == [r];
  }

  lemma {:induction false} CommitBoth(s: System, m: Message, n: Message)
    requires |s.workers| == 1 && s.workers[0] == Worker([2], [m, n], Committing) && s.committed == [0]
    requires m.partition == n.partition == 0 && m.offset == 0 && n.offset == 1
    ensures Next(s, Commit(0, {0})).committed == [2]
  {
    var b := [m, n];
    assert b[..1] == [m] && [m][..0] == [];
    assert Top([m], 0) == 1;
    assert Top(b, 0) == 2;
  }

  lemma {:induction false} FetchBoth(e: Event, f: Event)
    ensures var m, n := Message(0, 0, "", Json(e), 0), Message(0, 1, "", Json(f), 0);
            Exec(Init(1, 1), [Append(0, "", Json(e), 0), Append(0, "", Json(f), 0), Fetch(0, 0), Fetch(0, 0)])
            == System([[m, n]], [0], [Worker([2], [m, n], Filling)], {}, [], [])
  {
    var m, n := Message(0, 0, "", Json(e), 0), Message(0, 1, "", Json(f), 0);
    var s0 := Init(1, 1);
    ExecFour(s0, Append(0, "", Json(e), 0), Append(0, "", Json(f), 0), Fetch(0, 0), Fetch(0, 0));
    assert s0.committed == [0] && s0.raw == [[]] && s0.workers == [Worker([0], [], Filling)];
    var s2 := Next(Next(s0, Append(0, "", Json(e), 0)), Append(0, "", Json(f), 0));
    assert s2.raw == [[m, n]] by { assert s0.raw[0] + [m] + [n] == [m, n]; }
    TakeBoth(s2, m, n);
  }

  lemma {:induction false} TakeBoth(s: System, m: Message, n: Message)
    requires s == System([[m, n]], [0], [Worker([0], [], Filling)], {}, [], [])
    ensures Next(Next(s, Fetch(0, 0)), Fetch(0, 0)) == s.(workers := [Worker([2], [m, n], Filling)])
  {
    var s1 := Next(s, Fetch(0, 0));
    assert s1.workers == [Worker([1], [m], Filling)] by {
      assert [0 as nat][0 := 1] == [1] && [] + [m] == [m];
    }
    assert Next(s1, Fetch(0, 0)).workers == [Worker([2], [m, n], Filling)] by {
      assert [1 as nat][0 := 2] == [2] && [m] + [n] == [m, n];
    }
  }

  // ---------------------------------------------------------------------------------------
  // The exact condition
  // ---------------------------------------------------------------------------------------

  /** All events the producers ever send come from `universe`. */
  ghost predicate SendsOnly(run: seq<Action>, universe: iset<Event>) {
    forall a | a in run && a.Append? && a.payload.Json? :: a.payload.event in universe
  }

  /** Among the acceptable events of `universe`, an id names one event. */
  ghost predicate OneEventPerId(universe: iset<Event>, view: View) {
    forall e, f | e in universe && f in universe && e.eventId == f.eventId
                  && Validate(e, view).Accepted? && Validate(f, view).Accepted? :: e == f
  }

  /** Every run over `universe` and every history of a table that caught up shows exactly the committed events. */
  ghost predicate AlwaysExact(universe: iset<Event>, view: View) {
    forall partitions: nat, workers: nat, run: seq<Action>, steps: seq<TableStep> |
      && FixedView(run, view) && SendsOnly(run, universe)
      && CaughtUp(TableRun(steps), Exec(Init(partitions, workers), run).clean) ::
      ShowsExactly(Exec(Init(partitions, workers), run), FinalRows(TableRun(steps).rows), view)
  }

  /** Effectively once holds for all runs if and only if no two acceptable events share an id. */
  lemma {:induction false} EffectivelyOnceIff(universe: iset<Event>, view: View)
    ensures AlwaysExact(universe, view) <==> OneEventPerId(universe, view)
  {
    if OneEventPerId(universe, view) {
      UniqueIdsAreEnough(universe, view);
    }
    forall e, f | e in universe && f in universe && e.eventId == f.eventId && e != f
                  && Validate(e, view).Accepted? && Validate(f, view).Accepted?
      ensures !AlwaysExact(universe, view)
    {
      ReuseIsSeen(universe, view, e, f);
    }
  }

  lemma {:induction false} UniqueIdsAreEnough(universe: iset<Event>, view: View)
    requires OneEventPerId(universe, view)
    ensures AlwaysExact(universe, view)
  {
    forall partitions: nat, workers: nat, run: seq<Action>, steps: seq<TableStep> |
      && FixedView(run, view) && SendsOnly(run, universe)
      && CaughtUp(TableRun(steps), Exec(Init(partitions, workers), run).clean)
      ensures ShowsExactly(Exec(Init(partitions, workers), run), FinalRows(TableRun(steps).rows), view)
    {
      SentIsInUniverse(partitions, workers, run, universe);
      ExactlyOneRowPerEvent(partitions, workers, run, view, steps);
    }
  }

  lemma {:induction false} SentIsInUniverse(partitions: nat, workers: nat, run: seq<Action>, universe: iset<Event>)
    requires SendsOnly(run, universe)
    ensures forall e | Sent(Exec(Init(partitions, workers), run), e) :: e in universe
  {
    if run != [] {
      var n := |run| - 1;
      assert forall a | a in run[..n] :: a in run;
      SentIsInUniverse(partitions, workers, run[..n], universe);
      var s := Exec(Init(partitions, workers), run[..n]);
      assert run[n] in run;
      forall e | Sent(Next(s, run[n]), e)
        ensures e in universe
      {
        SentBefore(s, run[n], e);
      }
    }
  }

  lemma {:induction false} SentBefore(s: System, a: Action, e: Event)
    requires Sent(Next(s, a), e)
    ensures Sent(s, e) || (a.Append? && a.payload == Json(e))
  {
    var t := Next(s, a);
    var p, o :| 0 <= p < |t.raw| && 0 <= o < |t.raw[p]| && t.raw[p][o].payload == Json(e);
    if t.raw != s.raw && !(p == a.p && o == |s.raw[p]|) {
      assert s.raw[p][o] == t.raw[p][o];
    }
  }

  /** The run that reuses an id, and a table that took in its clean topic, do not show the second event. */
  lemma {:induction false} ReuseIsSeen(universe: iset<Event>, view: View, e: Event, f: Event)
    requires e in universe && f in universe && e != f && e.eventId == f.eventId
    requires Validate(e, view).Accepted? && Validate(f, view).Accepted?
    ensures !AlwaysExact(universe, view)
  {
    var run := ReuseRun(view, e, f);
    ReusedIdLosesEvent(view, e, f);
    assert SendsOnly(run, universe);
    var s := Exec(Init(1, 1), run);
    var steps := [Insert(s.clean)];
    OneBlock(s.clean);
    FinalKeepsOut(s.clean, f);
    assert !ShowsExactly(s, FinalRows(TableRun(steps).rows), view);
  }

  lemma {:induction false} OneBlock(rows: seq<CleanRow>)
    ensures TableRun([Insert(rows)]) == Table(rows, rows)
  {
    var steps := [Insert(rows)];
    assert steps[..0] == [];
    assert TableNext(EMPTY_TABLE, Insert(rows)) == Table(rows, rows);
  }

  lemma {:induction false} FinalKeepsOut(rows: seq<CleanRow>, e: Event)
    requires forall r | r in rows :: r.event != e
    ensures forall i | 0 <= i < |FinalRows(rows)| :: FinalRows(rows)[i].event != e
  {
    FinalRowsEnumerate(rows);
    FinalDominates(rows);
    forall i | 0 <= i < |FinalRows(rows)|
      ensures FinalRows(rows)[i].event != e
    {
      assert FinalRows(rows)[i] in FinalRows(rows);
      assert Final(rows)[Key(FinalRows(rows)[i])] in rows;
    }
  }
}
