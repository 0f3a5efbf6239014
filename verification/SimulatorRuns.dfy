/** What every run of a connector keeps: the session grammar, the order of event times, and energy. */
module SimulatorRuns {
  import opened Events
  import opened ChargingModel
  import opened Simulator

  datatype Tick = Tick(now: int, draw: Draw)

  /** A run so far. `soc0` remembers the charge with which the latest session arrived. */
  datatype Trace = Trace(c: ConnectorState, sent: seq<Event>, now: int, soc0: real)

  /** emitInitialStatuses: every connector starts with a STATUS_CHANGE to Available. */
  function Begin(st: Station, c: ConnectorState, now: int, eventId: string): Trace {
    Trace(c, [StatusEvent(st, c, now, Available, eventId)], now, 0.0)
  }

  function NextTrace(st: Station, windows: seq<PeakWindow>, t: Trace, tick: Tick): Trace
    requires Fair(tick.draw) && Ready(t.c)
  {
    var o := StepConnector(st, windows, t.c, tick.now, tick.draw);
    Trace(o.c, t.sent + o.sent, tick.now, if o.delta == 1 then tick.draw.soc0 else t.soc0)
  }

  /** Ticks move strictly forward and every session draws an id of its own. */
  predicate Proper(start: int, ticks: seq<Tick>) {
    && (forall i | 0 <= i < |ticks| :: Fair(ticks[i].draw) && start < ticks[i].now)
    && (forall i, j | 0 <= i < j < |ticks| :: ticks[i].now < ticks[j].now)
    && (forall i, j | 0 <= i < j < |ticks| :: ticks[i].draw.sessionId != ticks[j].draw.sessionId)
  }

  predicate Idle(c: ConnectorState) {
    c.status == Available && c.session == None && 0.0 < c.rating <= 350.0
  }

  function Run(st: Station, windows: seq<PeakWindow>, c: ConnectorState, start: int, eventId: string, ticks: seq<Tick>)
    : (t: Trace)
    requires Idle(c) && Proper(start, ticks)
    ensures Coherent(t.c)
  {
    if ticks == [] then Begin(st, c, start, eventId)
    else
      var n := |ticks| - 1;
      var t := Run(st, windows, c, start, eventId, ticks[..n]);
      StepKeepsCoherent(st, windows, t.c, ticks[n].now, ticks[n].draw);
      NextTrace(st, windows, t, ticks[n])
  }

  // ---------------------------------------------------------------------------------------
  // The shapes a tick can take
  // ---------------------------------------------------------------------------------------

  predicate Says(e: Event, kind: EventType, sessionId: string, at: int) {
    e.eventType == kind && e.sessionId == sessionId && e.timestamp == Some(Millis(at))
  }

  predicate Reports(e: Event, status: Status, at: int) {
    e.eventType == StatusChange && e.status == status && e.timestamp == Some(Millis(at))
  }

  predicate Quiet(c: ConnectorState, o: Outcome) {
    o == Outcome(c, [], 0)
  }

  predicate Recovers(c: ConnectorState, now: int, o: Outcome) {
    && c.status.Faulted? && o.c.status == Available && o.c.session == None && o.delta == 0
    && |o.sent| == 1 && Reports(o.sent[0], Available, now)
  }

  predicate Breaks(c: ConnectorState, now: int, o: Outcome) {
    && c.status.Available? && o.c.status == Faulted && o.c.session == None && o.delta == 0
    && |o.sent| == 2 && Says(o.sent[0], FaultAlert, "", now) && Reports(o.sent[1], Faulted, now)
  }

  predicate Starts(c: ConnectorState, now: int, d: Draw, o: Outcome)
    requires Fair(d)
  {
    && c.status.Available? && o.c.status == Charging && o.delta == 1
    && o.c.session == Some(NewSession(c, now, d))
    && o.c.lastMeterAt == now && now + NS_PER_SECOND <= o.c.nextMeterAt
    && |o.sent| == 2 && Says(o.sent[0], SessionStart, d.sessionId, now) && Reports(o.sent[1], Charging, now)
    && o.sent[0].meter.Some? && o.sent[0].meter.value.energyKwh == 0.0
  }

  /** The session is closed at `at`, and `stop` is the event that says so. */
  predicate Closes(c: ConnectorState, at: int, o: Outcome, stop: Event)
    requires c.session.Some? && c.session.value.batteryKwh != 0.0
  {
    && o.c.session == None && o.delta == -1
    && Says(stop, SessionStop, c.session.value.id, at)
    && stop.meter.Some? && stop.meter.value.energyKwh == Round3(ClosedSession(c, at).energyKwh)
  }

  predicate Aborts(c: ConnectorState, now: int, o: Outcome)
    requires c.session.Some? && c.session.value.batteryKwh != 0.0
  {
    && o.c.status == Faulted && |o.sent| == 3
    && Says(o.sent[0], FaultAlert, "", now) && Closes(c, now, o, o.sent[1]) && Reports(o.sent[2], Faulted, now)
  }

  predicate Finishes(c: ConnectorState, now: int, o: Outcome)
    requires c.session.Some? && c.session.value.batteryKwh != 0.0
  {
    && o.c.status == Available && |o.sent| == 2
    && Closes(c, EffectiveStopAt(c.session.value, now), o, o.sent[0]) && Reports(o.sent[1], Available, now)
  }

  predicate Meters(c: ConnectorState, now: int, d: Draw, o: Outcome)
    requires c.session.Some? && c.session.value.batteryKwh != 0.0
  {
    && o.c.status == Charging && o.delta == 0 && |o.sent| == 1
    && now <= c.session.value.endsAt && c.session.value.soc < 100.0 && c.nextMeterAt < now
    && o.c.session == Some(Advance(c.session.value, MeterHours(c, now, d)))
    && o.c.lastMeterAt == now && now + NS_PER_SECOND <= o.c.nextMeterAt
    && Says(o.sent[0], MeterUpdate, c.session.value.id, now)
    && o.sent[0].meter.Some? && o.sent[0].meter.value.energyKwh == Round3(o.c.session.value.energyKwh)
  }

  predicate HasShape(c: ConnectorState, now: int, d: Draw, o: Outcome)
    requires Fair(d) && Coherent(c)
  {
    || Quiet(c, o)
    || Recovers(c, now, o)
    || Breaks(c, now, o)
    || Starts(c, now, d, o)
    || (c.session.Some? && (Aborts(c, now, o) || Finishes(c, now, o) || Meters(c, now, d, o)))
  }

  lemma {:induction false} StepHasShape(st: Station, windows: seq<PeakWindow>, c: ConnectorState, now: int, d: Draw)
    requires Fair(d) && Coherent(c)
    ensures HasShape(c, now, d, StepConnector(st, windows, c, now, d))
  {
    var o := StepConnector(st, windows, c, now, d);
    match c.status
    case Available =>
      assert d.faultHit ==> Breaks(c, now, o);
      assert !d.faultHit && c.idleUntil < now ==> Starts(c, now, d, o);
    case Charging =>
      var s := c.session.value;
      assert d.faultHit ==> Aborts(c, now, o);
      assert !d.faultHit && (s.endsAt < now || s.soc >= 100.0) ==> Finishes(c, now, o);
    case _ =>
  }

  // ---------------------------------------------------------------------------------------
  // The session grammar
  // ---------------------------------------------------------------------------------------

  /** What a reader of a connector's events knows: status, open session, sessions that ended. */
  datatype Machine = Machine(status: Status, open: Option<string>, ended: set<string>)

  /** The one event a reader accepts next, or None when the event breaks the grammar. */
  function Read(m: Machine, e: Event): Option<Machine> {
    match e.eventType
    case StatusChange => if e.status == m.status then None else Some(m.(status := e.status))
    case SessionStart =>
      if m.open.None? && e.sessionId !in m.ended then Some(m.(open := Some(e.sessionId))) else None
    case MeterUpdate => if m.open == Some(e.sessionId) then Some(m) else None
    case SessionStop =>
      if m.open == Some(e.sessionId) then Some(m.(open := None, ended := m.ended + {e.sessionId})) else None
    case _ => Some(m)
  }

  function Replay(events: seq<Event>): Option<Machine> {
    if events == [] then Some(Machine(NoStatus, None, {}))
    else
      var m := Replay(events[..|events| - 1]);
      if m.None? then None else Read(m.value, events[|events| - 1])
  }

  function SessionIdOf(c: ConnectorState): Option<string> {
    if c.session.Some? then Some(c.session.value.id) else None
  }

  lemma {:induction false} ReplaySnoc(events: seq<Event>, e: Event)
    ensures Replay(events + [e]) == if Replay(events).None? then None else Read(Replay(events).value, e)
  {
  }

  /** The reader agrees with the connector, and has only met ids from `used`. */
  predicate ReadsAs(events: seq<Event>, c: ConnectorState, used: set<string>) {
    && Replay(events).Some?
    && Replay(events).value.status == c.status
    && Replay(events).value.open == SessionIdOf(c)
    && Replay(events).value.ended <= used
    && (c.session.Some? ==> c.session.value.id in used && c.session.value.id !in Replay(events).value.ended)
  }

  lemma {:induction false} ShapeReadsOn(
    c: ConnectorState, now: int, d: Draw, o: Outcome, events: seq<Event>, used: set<string>)
    requires Fair(d) && Coherent(c) && HasShape(c, now, d, o)
    requires ReadsAs(events, c, used) && d.sessionId !in used
    ensures ReadsAs(events + o.sent, o.c, used + {d.sessionId})
  {
    if o.sent == [] {
      assert events + o.sent == events;
    } else {
      var e1 := events + [o.sent[0]];
      ReplaySnoc(events, o.sent[0]);
      if |o.sent| == 1 {
        assert events + o.sent == e1;
      } else {
        var e2 := e1 + [o.sent[1]];
        ReplaySnoc(e1, o.sent[1]);
        if |o.sent| == 2 {
          assert events + o.sent == e2;
        } else {
          ReplaySnoc(e2, o.sent[2]);
          assert events + o.sent == e2 + [o.sent[2]];
        }
      }
    }
  }

  lemma {:induction false} TickReadsOn(st: Station, windows: seq<PeakWindow>, t: Trace, tick: Tick, used: set<string>)
    requires Fair(tick.draw) && Coherent(t.c) && ReadsAs(t.sent, t.c, used) && tick.draw.sessionId !in used
    ensures var t' := NextTrace(st, windows, t, tick);
            ReadsAs(t'.sent, t'.c, used + {tick.draw.sessionId})
  {
    StepHasShape(st, windows, t.c, tick.now, tick.draw);
    ShapeReadsOn(t.c, tick.now, tick.draw, StepConnector(st, windows, t.c, tick.now, tick.draw), t.sent, used);
  }

  function IdsDrawn(ticks: seq<Tick>): set<string> {
    set i | 0 <= i < |ticks| :: ticks[i].draw.sessionId
  }

  /**
    Over every run, a reader of the emitted events accepts them all and ends up knowing exactly
    the connector's status and open session: consecutive STATUS_CHANGEs differ, and every session
    is one START, then METERs, then at most one STOP.
   */
  lemma {:induction false} EventsReplayTheConnector(
    st: Station, windows: seq<PeakWindow>, c: ConnectorState, start: int, eventId: string, ticks: seq<Tick>)
    requires Idle(c) && Proper(start, ticks)
    ensures var t := Run(st, windows, c, start, eventId, ticks);
            ReadsAs(t.sent, t.c, IdsDrawn(ticks))
  {
    if ticks == [] {
      BeginReads(st, c, start, eventId);
    } else {
      EventsReplayTheConnector(st, windows, c, start, eventId, ticks[..|ticks| - 1]);
      LastTickReadsOn(st, windows, c, start, eventId, ticks);
    }
  }

  lemma {:induction false} LastTickReadsOn(
    st: Station, windows: seq<PeakWindow>, c: ConnectorState, start: int, eventId: string, ticks: seq<Tick>)
    requires Idle(c) && Proper(start, ticks) && ticks != []
    requires var t := Run(st, windows, c, start, eventId, ticks[..|ticks| - 1]);
             ReadsAs(t.sent, t.c, IdsDrawn(ticks[..|ticks| - 1]))
    ensures var t := Run(st, windows, c, start, eventId, ticks);
            ReadsAs(t.sent, t.c, IdsDrawn(ticks))
  {
    var n := |ticks| - 1;
    var t := Run(st, windows, c, start, eventId, ticks[..n]);
    DrawnSnoc(ticks);
    assert Fair(ticks[n].draw);
    TickReadsOn(st, windows, t, ticks[n], IdsDrawn(ticks[..n]));
    assert Run(st, windows, c, start, eventId, ticks) == NextTrace(st, windows, t, ticks[n]);
  }

  lemma {:induction false} BeginReads(st: Station, c: ConnectorState, now: int, eventId: string)
    requires Idle(c)
    ensures ReadsAs(Begin(st, c, now, eventId).sent, c, {})
  {
  }

  lemma {:induction false} DrawnSnoc(ticks: seq<Tick>)
    requires ticks != [] && forall i, j | 0 <= i < j < |ticks| :: ticks[i].draw.sessionId != ticks[j].draw.sessionId
    ensures var n := |ticks| - 1;
            && ticks[n].draw.sessionId !in IdsDrawn(ticks[..n])
            && IdsDrawn(ticks) == IdsDrawn(ticks[..n]) + {ticks[n].draw.sessionId}
  {
  }

  function Count(events: seq<Event>, kind: EventType, sessionId: string): nat {
    if events == [] then 0
    else
      var e := events[|events| - 1];
      Count(events[..|events| - 1], kind, sessionId) + (if e.eventType == kind && e.sessionId == sessionId
          then 1 else 0)
  }

  /** In any event list the reader accepts, a session starts at most once and stops at most once, after its start. */
  lemma {:induction false} AcceptedSessionsAreSingle(events: seq<Event>, id: string)
    requires Replay(events).Some?
    ensures var m := Replay(events).value;
            && Count(events, SessionStart, id) == (if m.open == Some(id) || id in m.ended then 1 else 0)
            && Count(events, SessionStop, id) == (if id in m.ended then 1 else 0)
            && (m.open.Some? ==> m.open.value !in m.ended)
  {
    if events != [] {
      AcceptedSessionsAreSingle(events[..|events| - 1], id);
    }
  }

  // ---------------------------------------------------------------------------------------
  // Emission order is event-time order
  // ---------------------------------------------------------------------------------------

  /** Meter bookkeeping of an open session: every reading so far lies at or before its end. */
  predicate Metered(c: ConnectorState, now: int) {
    c.session.Some? ==>
      && c.session.value.startedAt <= c.lastMeterAt
      && c.lastMeterAt + NS_PER_SECOND <= c.nextMeterAt
      && c.lastMeterAt <= now
      && c.lastMeterAt <= c.session.value.endsAt
  }

  function TimeOf(e: Event): int {
    if e.timestamp.Some? then e.timestamp.value else 0
  }

  predicate Ordered(events: seq<Event>) {
    forall i, j | 0 <= i < j < |events| :: TimeOf(events[i]) <= TimeOf(events[j])
  }

  /** Nothing was emitted after `bound`. */
  predicate EmittedBy(events: seq<Event>, bound: int) {
    forall i | 0 <= i < |events| :: TimeOf(events[i]) <= bound
  }

  function LatestEmission(t: Trace): int {
    if t.c.session.Some? then Millis(t.c.lastMeterAt) else Millis(t.now)
  }

  lemma {:induction false} ShapeIsOrdered(c: ConnectorState, before: int, now: int, d: Draw, o: Outcome)
    requires Fair(d) && Coherent(c) && HasShape(c, now, d, o)
    requires before < now && Metered(c, before)
    ensures Metered(o.c, now) && Ordered(o.sent)
    ensures forall i | 0 <= i < |o.sent| ::
              && (if c.session.Some? then Millis(c.lastMeterAt) else Millis(before)) <= TimeOf(o.sent[i])
              && TimeOf(o.sent[i]) <= (if o.c.session.Some? then Millis(o.c.lastMeterAt) else Millis(now))
  {
  }

  lemma {:induction false} StepKeepsOrder(st: Station, windows: seq<PeakWindow>, t: Trace, tick: Tick)
    requires Fair(tick.draw) && Coherent(t.c) && t.now < tick.now
    requires Metered(t.c, t.now) && Ordered(t.sent) && EmittedBy(t.sent, LatestEmission(t))
    ensures var t' := NextTrace(st, windows, t, tick);
            Metered(t'.c, t'.now) && Ordered(t'.sent) && EmittedBy(t'.sent, LatestEmission(t'))
  {
    var o := StepConnector(st, windows, t.c, tick.now, tick.draw);
    StepHasShape(st, windows, t.c, tick.now, tick.draw);
    ShapeIsOrdered(t.c, t.now, tick.now, tick.draw, o);
    OrderedConcat(t.sent, o.sent, LatestEmission(t));
    LatestGrows(t.c, t.now, tick.now, tick.draw, o);
  }

  /** The bound on emissions never moves back. */
  lemma {:induction false} LatestGrows(c: ConnectorState, before: int, now: int, d: Draw, o: Outcome)
    requires Fair(d) && Coherent(c) && HasShape(c, now, d, o)
    requires before < now && Metered(c, before)
    ensures (if c.session.Some? then Millis(c.lastMeterAt) else Millis(before))
            <= (if o.c.session.Some? then Millis(o.c.lastMeterAt) else Millis(now))
  {
  }

  lemma {:induction false} OrderedConcat(a: seq<Event>, b: seq<Event>, bound: int)
    requires Ordered(a) && Ordered(b) && EmittedBy(a, bound)
    requires forall i | 0 <= i < |b| :: bound <= TimeOf(b[i])
    ensures Ordered(a + b)
  {
  }

  /**
    For strictly increasing ticks the emitted event times never go back, although a stop by
    duration is back-dated to the planned end.
   */
  lemma {:induction false} EmissionIsInEventTimeOrder(
    st: Station, windows: seq<PeakWindow>, c: ConnectorState, start: int, eventId: string, ticks: seq<Tick>)
    requires Idle(c) && Proper(start, ticks)
    ensures var t := Run(st, windows, c, start, eventId, ticks);
            && Ordered(t.sent)
            && Metered(t.c, t.now) && EmittedBy(t.sent, LatestEmission(t))
            && t.now == (if ticks == [] then start else ticks[|ticks| - 1].now)
  {
    if ticks != [] {
      var n := |ticks| - 1;
      EmissionIsInEventTimeOrder(st, windows, c, start, eventId, ticks[..n]);
      var t := Run(st, windows, c, start, eventId, ticks[..n]);
      assert n > 0 ==> ticks[..n][n - 1] == ticks[n - 1];
      StepKeepsOrder(st, windows, t, ticks[n]);
    }
  }
}
