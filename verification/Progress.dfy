/**
  The delivery protocol can always finish: from every reachable state some continuation without
  new messages commits the whole raw log.
 */
module Progress {
  import opened Validation
  import opened Analytics
  import opened Delivery
  import opened EffectivelyOnce

  predicate FullyCommitted(s: System) {
    |s.committed| == |s.raw| && forall p | 0 <= p < |s.raw| :: s.committed[p] == |s.raw[p]|
  }

  /** Nothing is sent, and every lookup judges by `view`. */
  predicate OnlyWorks(run: seq<Action>, view: View) {
    FixedView(run, view) && forall a | a in run :: !a.Append?
  }

  /** One worker starts over, takes one message through a flush without failures, and commits it. */
  function OneMessage(p: nat, view: View): seq<Action> {
    [Restart(0), Fetch(0, p)]
    + FlushRun(0, [view], 0, true, Write(true, []), Write(true, []), AllMarked)
    + [Commit(0, {p})]
  }

  lemma {:induction false} CommitOne(s: System, p: nat, view: View)
    requires Inv(s) && s.workers != [] && p < |s.raw| && s.committed[p] < |s.raw[p]|
    ensures var t := Exec(s, OneMessage(p, view));
            t.raw == s.raw && t.committed == s.committed[p := s.committed[p] + 1] && t.workers != []
  {
    var m := s.raw[p][s.committed[p]];
    var s2 := TakeOne(s, p, m);
    var start := [Restart(0), Fetch(0, p)];
    var flush := FlushRun(0, [view], 0, true, Write(true, []), Write(true, []), AllMarked);
    var s3 := FlushOne(s2, m, view);
    ExecConcat(s, start, flush);
    ExecSnoc(s, start + flush, Commit(0, {p}));
    CommitTaken(s3, p, m);
  }

  lemma {:induction false} OneMessageWorks(p: nat, view: View)
    ensures OnlyWorks(OneMessage(p, view), view)
  {
  }

  lemma {:induction false} TakeOne(s: System, p: nat, m: Message) returns (t: System)
    requires Inv(s) && s.workers != [] && p < |s.raw| && s.committed[p] < |s.raw[p]| && m == s.raw[p][s.committed[p]]
    ensures t == Exec(s, [Restart(0), Fetch(0, p)])
    ensures t.raw == s.raw && t.committed == s.committed && |t.workers| == |s.workers|
    ensures t.workers[0].batch == [m] && t.workers[0].stage == Filling
  {
    ExecTwo(s, Restart(0), Fetch(0, p));
    t := Exec(s, [Restart(0), Fetch(0, p)]);
    assert Next(s, Restart(0)).workers[0] == Joined(s);
    assert [] + [m] == [m];
  }

  lemma {:induction false} FlushOne(s: System, m: Message, view: View) returns (t: System)
    requires s.workers != [] && s.workers[0].batch == [m] && s.workers[0].stage == Filling
    ensures t == Exec(s, FlushRun(0, [view], 0, true, Write(true, []), Write(true, []), AllMarked))
    ensures t.raw == s.raw && t.committed == s.committed && |t.workers| == |s.workers|
    ensures t.workers[0].batch == [m] && t.workers[0].stage == Committing
  {
    FlushIsARun(s, 0, [view], 0, true, Write(true, []), Write(true, []), AllMarked);
    t := Exec(s, FlushRun(0, [view], 0, true, Write(true, []), Write(true, []), AllMarked));
  }

  lemma {:induction false} CommitTaken(s: System, p: nat, m: Message)
    requires s.workers != [] && s.workers[0].batch == [m] && s.workers[0].stage == Committing
    requires p < |s.committed| && m.partition == p && m.offset == s.committed[p]
    ensures var t := Next(s, Commit(0, {p}));
            t.raw == s.raw && t.committed == s.committed[p := s.committed[p] + 1] && t.workers != []
  {
    assert [m][..0] == [];
    assert Top([m], p) == m.offset + 1;
  }

  /** Message by message, partition by partition. */
  lemma {:induction false} CanDrain(s: System, view: View) returns (run: seq<Action>)
    requires Inv(s) && s.workers != []
    ensures OnlyWorks(run, view)
    ensures Exec(s, run).raw == s.raw && FullyCommitted(Exec(s, run))
  {
    run := [];
    for p := 0 to |s.raw|
      invariant OnlyWorks(run, view) && Continues(s, run)
      invariant forall q | 0 <= q < p :: Exec(s, run).committed[q] == |s.raw[q]|
    {
      while Exec(s, run).committed[p] < |s.raw[p]|
        invariant OnlyWorks(run, view) && Continues(s, run)
        invariant forall q | 0 <= q < p :: Exec(s, run).committed[q] == |s.raw[q]|
        decreases |s.raw[p]| - Exec(s, run).committed[p]
      {
        var t := Exec(s, run);
        OneMessageWorks(p, view);
        CommitOne(t, p, view);
        ExecConcat(s, run, OneMessage(p, view));
        RunKeepsInv(t, OneMessage(p, view));
        run := run + OneMessage(p, view);
      }
    }
  }

  predicate Continues(s: System, run: seq<Action>) {
    var t := Exec(s, run);
    Inv(t) && t.raw == s.raw && t.workers != []
  }
}
