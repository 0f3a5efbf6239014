/**
  Report A2 on what the simulator emits: the downtime it reports for a connector is the number
  of seconds at which the simulated connector really was Faulted.
 */
module SimulatorUptime {
  import opened Events
  import opened ChargingModel
  import opened Simulator
  import opened SimulatorRuns
  import opened Uptime

  /** The STATUS_CHANGE rows of a connector, in the order it emitted them. */
  function History(events: seq<Event>): seq<Change> {
    if events == [] then []
    else
      var e := events[|events| - 1];
      var rest := History(events[..|events| - 1]);
      if e.eventType.StatusChange? && e.timestamp.Some? then rest + [Change(e.timestamp.value, e.status)] else rest
  }

  /** The connector's own status just before instant `t`, not read off its events. */
  function StatusDuring(
    st: Station, windows: seq<PeakWindow>, c: ConnectorState, start: int, eventId: string, ticks: seq<Tick>, t: int)
    : Option<Status>
    requires Idle(c) && Proper(start, ticks)
  {
    if ticks != [] && t <= Millis(ticks[|ticks| - 1].now)
    then StatusDuring(st, windows, c, start, eventId, ticks[..|ticks| - 1], t)
    else if ticks == [] && t <= Millis(start) then None
    else Some(Run(st, windows, c, start, eventId, ticks).c.status)
  }

  /** Whole-second instants in (lo, hi] just before which the connector was Faulted. */
  function FaultedSeconds(
    st: Station, windows: seq<PeakWindow>, c: ConnectorState, start: int, eventId: string, ticks: seq<Tick>,
    lo: int, hi: int)
    : nat
    requires Idle(c) && Proper(start, ticks)
    decreases hi - lo
  {
    if hi <= lo then 0
    else
      FaultedSeconds(st, windows, c, start, eventId, ticks, lo, hi - 1)
      + (if StatusDuring(st, windows, c, start, eventId, ticks, 1000 * hi) == Some(Faulted) then 1 else 0)
  }

  lemma {:induction false} HistoryConcat(a: seq<Event>, b: seq<Event>)
    ensures History(a + b) == History(a) + History(b)
  {
    if b == [] {
      assert a + b == a;
    } else {
      var n := |b| - 1;
      assert (a + b)[..|a + b| - 1] == a + b[..n];
      HistoryConcat(a, b[..n]);
    }
  }

  /** A tick adds one row, stamped with the tick and saying the new status, or keeps the status. */
  lemma {:induction false} ShapeReportsStatus(c: ConnectorState, now: int, d: Draw, o: Outcome)
    requires Fair(d) && Coherent(c) && HasShape(c, now, d, o)
    ensures History(o.sent) == [Change(Millis(now), o.c.status)] || (History(o.sent) == [] && o.c.status == c.status)
  {
    if |o.sent| > 0 {
      assert o.sent[..0] == [];
      var n := |o.sent| - 1;
      assert |o.sent| == 3 ==> o.sent[..2][..1] == o.sent[..1] && History(o.sent[..1]) == [];
      assert |o.sent| >= 2 ==> o.sent[..n][..n - 1] == o.sent[..n - 1];
      assert n >= 1 ==> History(o.sent[..n]) == [];
    }
  }

  /** The rows so far form a timeline that ends in the connector's present status. */
  predicate Faithful(hist: seq<Change>, c: ConnectorState, now: int) {
    Timeline(hist) && hist != [] && hist[|hist| - 1] == Change(hist[|hist| - 1].ts, c.status)
        && hist[|hist| - 1].ts <= Millis(now)
  }

  lemma {:induction false} TimelineSnoc(hist: seq<Change>, x: Change)
    requires Timeline(hist) && (hist != [] ==> hist[|hist| - 1].ts <= x.ts)
    ensures Timeline(hist + [x])
  {
  }

  /** One tick keeps the rows faithful, and changes nothing that a reader sees before the tick. */
  lemma {:induction false} TickStaysFaithful(
    hist: seq<Change>, more: seq<Change>, c: ConnectorState, c': ConnectorState, before: int, now: int)
    requires Faithful(hist, c, before) && Millis(before) <= Millis(now)
    requires more == [Change(Millis(now), c'.status)] || (more == [] && c'.status == c.status)
    ensures Faithful(hist + more, c', now)
    ensures forall t | t <= Millis(now) :: StatusBefore(hist + more, t) == StatusBefore(hist, t)
  {
    if more == [] {
      assert hist + more == hist;
    } else {
      TimelineSnoc(hist, more[0]);
      assert (hist + more)[..|hist|] == hist;
    }
  }

  /** In every run the rows are faithful and say, at every instant, what the connector was. */
  lemma {:induction false} RowsTellTheStatus(
    st: Station, windows: seq<PeakWindow>, c: ConnectorState, start: int, eventId: string, ticks: seq<Tick>)
    requires Idle(c) && Proper(start, ticks)
    ensures var tr := Run(st, windows, c, start, eventId, ticks);
            && Faithful(History(tr.sent), tr.c, tr.now)
            && tr.now == (if ticks == [] then start else ticks[|ticks| - 1].now)
    ensures forall t :: StatusBefore(History(Run(st, windows, c, start, eventId, ticks).sent), t)
                        == StatusDuring(st, windows, c, start, eventId, ticks, t)
  {
    if ticks == [] {
      BeginTells(st, c, start, eventId);
    } else {
      var n := |ticks| - 1;
      RowsTellTheStatus(st, windows, c, start, eventId, ticks[..n]);
      LastRows(st, windows, c, start, eventId, ticks);
      LastTickTells(st, windows, c, start, eventId, ticks);
    }
  }

  lemma {:induction false} BeginTells(st: Station, c: ConnectorState, start: int, eventId: string)
    requires Idle(c)
    ensures var hist := History(Begin(st, c, start, eventId).sent);
            && Faithful(hist, c, start)
            && forall t :: StatusBefore(hist, t) == if t <= Millis(start) then None else Some(Available)
  {
  }

  lemma {:induction false} NextRows(st: Station, windows: seq<PeakWindow>, tr: Trace, tick: Tick)
    requires Fair(tick.draw) && Coherent(tr.c) && Faithful(History(tr.sent), tr.c, tr.now)
    requires tr.now < tick.now
    ensures var tr' := NextTrace(st, windows, tr, tick);
            && Faithful(History(tr'.sent), tr'.c, tick.now)
            && forall t | t <= Millis(tick.now) :: StatusBefore(History(tr'.sent),
                t) == StatusBefore(History(tr.sent), t)
  {
    var o := StepConnector(st, windows, tr.c, tick.now, tick.draw);
    StepHasShape(st, windows, tr.c, tick.now, tick.draw);
    ShapeReportsStatus(tr.c, tick.now, tick.draw, o);
    HistoryConcat(tr.sent, o.sent);
    TickStaysFaithful(History(tr.sent), History(o.sent), tr.c, o.c, tr.now, tick.now);
  }

  lemma {:induction false} LastRows(
    st: Station, windows: seq<PeakWindow>, c: ConnectorState, start: int, eventId: string, ticks: seq<Tick>)
    requires Idle(c) && Proper(start, ticks) && ticks != []
    requires var tr := Run(st, windows, c, start, eventId, ticks[..|ticks| - 1]);
             && Faithful(History(tr.sent), tr.c, tr.now)
             && tr.now < ticks[|ticks| - 1].now
    ensures var tr, tr' := Run(st, windows, c, start, eventId, ticks[..|ticks| - 1]), Run(st, windows, c, start,
        eventId, ticks);
            && tr'.now == ticks[|ticks| - 1].now
            && Faithful(History(tr'.sent), tr'.c, tr'.now)
            && forall t | t <= Millis(tr'.now) :: StatusBefore(History(tr'.sent),
                t) == StatusBefore(History(tr.sent), t)
  {
    var n := |ticks| - 1;
    var tr := Run(st, windows, c, start, eventId, ticks[..n]);
    NextRows(st, windows, tr, ticks[n]);
    assert Run(st, windows, c, start, eventId, ticks) == NextTrace(st, windows, tr, ticks[n]);
  }

  lemma {:induction false} LastTickTells(
    st: Station, windows: seq<PeakWindow>, c: ConnectorState, start: int, eventId: string, ticks: seq<Tick>)
    requires Idle(c) && Proper(start, ticks) && ticks != []
    requires var n := |ticks| - 1;
             var hist := History(Run(st, windows, c, start, eventId, ticks).sent);
             && Faithful(hist, Run(st, windows, c, start, eventId, ticks).c, ticks[n].now)
             && (forall t | t <= Millis(ticks[n].now) ::
                   StatusBefore(hist, t) == StatusDuring(st, windows, c, start, eventId, ticks[..n], t))
    ensures forall t :: StatusBefore(History(Run(st, windows, c, start, eventId, ticks).sent), t)
                        == StatusDuring(st, windows, c, start, eventId, ticks, t)
  {
  }

  /**
    A2 is right about the simulator: for every run, connector and window that ends no earlier
    than the last tick, and rows of one millisecond read in the order of emission, the reported
    downtime counts exactly the seconds at which the connector was Faulted, and it never exceeds
    the reported total.
   */
  lemma {:induction false} ReportedDowntimeIsReal(
    st: Station, windows: seq<PeakWindow>, c: ConnectorState, start: int, eventId: string, ticks: seq<Tick>,
    from: int, end: int)
    requires Idle(c) && Proper(start, ticks) && from <= end
    requires Millis(if ticks == [] then start else ticks[|ticks| - 1].now) <= end
    ensures var hist := History(Run(st, windows, c, start, eventId, ticks).sent);
            && DowntimeSeconds(hist, from, end) == FaultedSeconds(st, windows, c, start, eventId, ticks,
                from / 1000, end / 1000)
            && DowntimeSeconds(hist, from, end) <= TotalSeconds(hist, from, end)
  {
    var hist := History(Run(st, windows, c, start, eventId, ticks).sent);
    RowsTellTheStatus(st, windows, c, start, eventId, ticks);
    forall i | 0 <= i < |hist|
      ensures hist[i].ts <= end
    {
      assert i < |hist| - 1 ==> hist[i].ts <= hist[|hist| - 1].ts;
    }
    UptimeIsPointwise(hist, from, end);
    SecondsAgree(st, windows, c, start, eventId, ticks, hist, from / 1000, end / 1000);
  }

  lemma {:induction false} SecondsAgree(
    st: Station, windows: seq<PeakWindow>, c: ConnectorState, start: int, eventId: string, ticks: seq<Tick>,
    hist: seq<Change>, lo: int, hi: int)
    requires Idle(c) && Proper(start, ticks)
    requires forall t :: StatusBefore(hist, t) == StatusDuring(st, windows, c, start, eventId, ticks, t)
    ensures Ticks(hist, lo, hi, true) == FaultedSeconds(st, windows, c, start, eventId, ticks, lo, hi)
    decreases hi - lo
  {
    if lo < hi {
      SecondsAgree(st, windows, c, start, eventId, ticks, hist, lo, hi - 1);
      assert StatusBefore(hist, 1000 * hi) == StatusDuring(st, windows, c, start, eventId, ticks, 1000 * hi);
    }
  }
}
