/**
  The whole pipeline in one statement: raw log -> workers, crashes and retries -> clean topic ->
  landing table and its merges -> daily reconciliation. The reconciled day equals a ledger that
  lists every accepted event once.
 */
module Books {
  import opened Events
  import opened Validation
  import opened Analytics
  import opened Delivery
  import opened ReplacingStore
  import opened EffectivelyOnce
  import opened Progress
  import opened Revenue

  /** Every acceptable event somebody sent has been committed. */
  ghost predicate Drained(s: System, view: View) {
    forall e | Genuine(s, e, view) :: CommittedEvent(s, e)
  }

  /** Every run of at least one worker can be continued, with nothing new sent, until it is drained. */
  lemma {:induction false} DrainedIsReachable(partitions: nat, workers: nat, run: seq<Action>, view: View)
    returns (more: seq<Action>)
    requires FixedView(run, view) && workers > 0
    ensures FixedView(run + more, view) && OnlyWorks(more, view)
    ensures Exec(Init(partitions, workers), run + more).raw == Exec(Init(partitions, workers), run).raw
    ensures Drained(Exec(Init(partitions, workers), run + more), view)
  {
    var s := Exec(Init(partitions, workers), run);
    RunKeepsInv(Init(partitions, workers), run);
    WorkersStay(Init(partitions, workers), run);
    more := CanDrain(s, view);
    ExecConcat(Init(partitions, workers), run, more);
    FullyCommittedIsDrained(Exec(s, more), view);
  }

  lemma {:induction false} FullyCommittedIsDrained(s: System, view: View)
    requires FullyCommitted(s)
    ensures Drained(s, view)
  {
    forall e | Genuine(s, e, view)
      ensures CommittedEvent(s, e)
    {
      var p, o :| 0 <= p < |s.raw| && 0 <= o < |s.raw[p]| && s.raw[p][o].payload == Json(e);
      assert s.committed[p] == |s.raw[p]|;
    }
  }

  lemma {:induction false} WorkersStay(s: System, run: seq<Action>)
    ensures |Exec(s, run).workers| == |s.workers|
  {
    if run != [] {
      WorkersStay(s, run[..|run| - 1]);
    }
  }

  /** The accepted events, each listed once. */
  ghost predicate IsLedger(ledger: seq<Event>, s: System, view: View) {
    && (forall i, j | 0 <= i < j < |ledger| :: ledger[i] != ledger[j])
    && (forall e | e in ledger :: Genuine(s, e, view))
    && (forall e | Genuine(s, e, view) :: e in ledger)
  }

  /** One duplicate-free view of the accepted events is as good as another. */
  lemma {:induction false} ViewIsLedger(final: seq<CleanRow>, ledger: seq<Event>, s: System, view: View)
    requires IsLedger(ledger, s, view) && Drained(s, view) && ShowsExactly(s, final, view)
    ensures SameEvents(EventsOf(final), ledger)
  {
    var es := EventsOf(final);
    forall e | e in es
      ensures e in ledger
    {
      var i :| 0 <= i < |final| && final[i].event == e;
      assert final[i] in final;
    }
    forall e | e in ledger
      ensures e in es
    {
      assert CommittedEvent(s, e);
      var i :| 0 <= i < |final| && final[i].event == e;
      assert es[i] == e;
    }
  }

  /** A table that caught up with a drained pipeline holds the ledger's sums in every bucket. */
  lemma {:induction false} FinalIsLedger(
    partitions: nat, workers: nat, run: seq<Action>, view: View, t: Table, ledger: seq<Event>, b: Bucket)
    requires FixedView(run, view)
    requires ResendsIdentical(Exec(Init(partitions, workers), run), view)
        && Drained(Exec(Init(partitions, workers), run), view)
    requires IsLedger(ledger, Exec(Init(partitions, workers), run), view)
    requires Merged(t) && CaughtUp(t, Exec(Init(partitions, workers), run).clean)
    ensures Exact(t.rows, b) == Sum(ledger, b)
  {
    CaughtUpTableIsExact(partitions, workers, run, view, t);
    ViewIsLedger(FinalRows(t.rows), ledger, Exec(Init(partitions, workers), run), view);
    SameSums(EventsOf(FinalRows(t.rows)), ledger, b);
  }

  /**
    After any run of the processor that has committed every acceptable event sent, and any run of
    the warehouse that has taken in the clean topic, with the two commands of a day's
    reconciliation `between` apart: a bucket of that day equals the ledger if and only if no stop
    of the bucket arrived between the two commands.
   */
  lemma {:induction false} BooksAreExact(
    partitions: nat, workers: nat, run: seq<Action>, view: View, ledger: seq<Event>,
    before: seq<Op>, d: int, between: seq<Op>, b: Bucket)
    requires FixedView(run, view)
    requires ResendsIdentical(Exec(Init(partitions, workers), run), view)
        && Drained(Exec(Init(partitions, workers), run), view)
    requires IsLedger(ledger, Exec(Init(partitions, workers), run), view)
    requires InDay(b, d) && LeavesDay(between, d)
    requires CaughtUp(Perform(EMPTY_TABLES, before + [DeleteDay(d)] + between).table, Exec(Init(partitions,
        workers), run).clean)
    ensures var t := Perform(EMPTY_TABLES, before + [DeleteDay(d)] + between + [RecomputeDay(d)]);
            && Exact(t.table.rows, b) == Sum(ledger, b)
            && (Read(t.rollup, b) == Sum(ledger, b) <==> StreamedBy(between, b).sessions == 0)
  {
    var t := Perform(EMPTY_TABLES, before);
    PerformSplit(before, d, between);
    PerformKeepsMerged(before + [DeleteDay(d)] + between);
    FinalIsLedger(partitions, workers, run, view, Perform(Apply(t, DeleteDay(d)), between).table, ledger, b);
    SplitReconcileIsExactIff(t, d, between, b);
  }

  lemma {:induction false} PerformSplit(before: seq<Op>, d: int, between: seq<Op>)
    ensures var t := Perform(Apply(Perform(EMPTY_TABLES, before), DeleteDay(d)), between);
            && Perform(EMPTY_TABLES, before + [DeleteDay(d)] + between) == t
            && Perform(EMPTY_TABLES, before + [DeleteDay(d)] + between + [RecomputeDay(d)]) == Apply(t, RecomputeDay(d))
  {
    PerformSnoc(EMPTY_TABLES, before, DeleteDay(d));
    PerformConcat(EMPTY_TABLES, before + [DeleteDay(d)], between);
    PerformSnoc(EMPTY_TABLES, before + [DeleteDay(d)] + between, RecomputeDay(d));
  }

  /** Whatever the processor published can be billed. */
  lemma {:induction false} PublishedIsBillable(partitions: nat, workers: nat, run: seq<Action>, view: View)
    requires FixedView(run, view)
    ensures forall r | r in Exec(Init(partitions, workers), run).clean :: Billable(r.event)
  {
    RunKeepsProvenance(partitions, workers, run, view);
    forall r | r in Exec(Init(partitions, workers), run).clean
      ensures Billable(r.event)
    {
      AcceptedIsBillable(r.event, view);
    }
  }

  lemma {:induction false} AcceptedIsBillable(e: Event, view: View)
    requires Validate(e, view).Accepted?
    ensures Billable(e)
  {
  }

  /** Blocks inserted from the clean topic, in any order and any number of times. */
  predicate InsertsOnly(ops: seq<Op>, clean: seq<CleanRow>) {
    forall i | 0 <= i < |ops| && ops[i].Land? && ops[i].step.Insert? :: forall r | r in ops[i].step.block :: r in clean
  }

  /**
    Over every delivery run and every run of the warehouse, the dashboard never understates a
    bucket outside the days that wait for their recompute.
   */
  lemma {:induction false} DashboardNeverUnderstates(
    partitions: nat, workers: nat, run: seq<Action>, view: View, ops: seq<Op>, b: Bucket)
    requires FixedView(run, view)
    requires InsertsOnly(ops, Exec(Init(partitions, workers), run).clean) && Settled(ops, b)
    ensures AtMost(Exact(Perform(EMPTY_TABLES, ops).table.rows, b), Read(Perform(EMPTY_TABLES, ops).rollup, b))
  {
    PublishedIsBillable(partitions, workers, run, view);
    InsertsArePayable(ops, Exec(Init(partitions, workers), run).clean);
    NeverUnderstated(ops, b);
  }

  lemma {:induction false} InsertsArePayable(ops: seq<Op>, clean: seq<CleanRow>)
    requires InsertsOnly(ops, clean) && forall r | r in clean :: Billable(r.event)
    ensures AllPayable(ops)
  {
    forall i | 0 <= i < |ops| && ops[i].Land? && ops[i].step.Insert?
      ensures Payable(ops[i].step.block)
    {
      assert forall k | 0 <= k < |ops[i].step.block| :: ops[i].step.block[k] in ops[i].step.block;
    }
  }
}
