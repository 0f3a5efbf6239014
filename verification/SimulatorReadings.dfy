/** What every single METER_UPDATE and SESSION_STOP of every run says (simulator/model.go). */
module SimulatorReadings {
  import opened Events
  import opened ChargingModel
  import opened Simulator
  import opened SimulatorRuns
  import opened SimulatorEnergy

  /** The tick that emitted an event, other than a status change. */
  lemma {:induction false} EmittedAt(
    st: Station, windows: seq<PeakWindow>, c: ConnectorState, start: int, eventId: string, ticks: seq<Tick>, e: Event)
    returns (n: nat)
    requires Idle(c) && Proper(start, ticks) && !e.eventType.StatusChange?
    requires e in Run(st, windows, c, start, eventId, ticks).sent
    ensures n < |ticks|
    ensures e in StepConnector(st, windows, Run(st, windows, c, start, eventId, ticks[..n]).c, ticks[n].now,
        ticks[n].draw).sent
  {
    if ticks == [] {
      assert false;
    } else {
      var m := |ticks| - 1;
      if e in Run(st, windows, c, start, eventId, ticks[..m]).sent {
        n := EmittedAt(st, windows, c, start, eventId, ticks[..m], e);
        assert ticks[..m][..n] == ticks[..n];
      } else {
        n := m;
      }
    }
  }

  /**
    The stop `e` closes the session of `c` at `at`: its register is the rounded energy of the
    whole session. Below a full charge the metered intervals and the tail tile the time from the
    start to `at`, and energy past the capacity is less than the tail; a full battery gets no tail.
   */
  predicate Tiles(c: ConnectorState, soc0: real, at: int, e: Event) {
    && c.session.Some? && c.session.value.batteryKwh != 0.0
    && var s, closed := c.session.value, ClosedSession(c, at);
    && Says(e, SessionStop, s.id, at) && e.meter.Some? && e.meter.value.energyKwh == Round3(closed.energyKwh)
    && s.startedAt <= c.lastMeterAt <= at && s.energyKwh <= closed.energyKwh
    && (s.soc < 100.0 ==>
          && Conserved(closed, soc0, Hours(at - s.startedAt))
          && closed.energyKwh - Capacity(s, soc0) < closed.energyKwh - s.energyKwh)
    && (s.soc >= 100.0 ==> closed == s && Conserved(closed, soc0, Hours(c.lastMeterAt - s.startedAt)))
  }

  lemma {:induction false} ClosingTiles(c: ConnectorState, soc0: real, at: int, o: Outcome, e: Event)
    requires Coherent(c) && c.session.Some? && OpenConserved(c, soc0) && Closes(c, at, o, e)
    requires c.session.value.startedAt <= c.lastMeterAt <= at
    ensures Tiles(c, soc0, at, e)
  {
    ClosingIsConserved(c, soc0, at);
  }

  /** The stop of a tick is stamped with the tick or with the effective stop. */
  lemma {:induction false} TickTiles(
    c: ConnectorState, soc0: real, before: int, now: int, d: Draw, o: Outcome, e: Event)
    returns (at: int)
    requires Fair(d) && Coherent(c) && HasShape(c, now, d, o) && before < now && Metered(c, before)
        && OpenConserved(c, soc0)
    requires e in o.sent && e.eventType.SessionStop?
    ensures c.session.Some? && Tiles(c, soc0, at, e)
    ensures at == now || at == EffectiveStopAt(c.session.value, now)
  {
    assert c.session.Some? && (Aborts(c, now, o) || Finishes(c, now, o));
    if Finishes(c, now, o) {
      at := EffectiveStopAt(c.session.value, now);
      assert e == o.sent[0];
    } else {
      at := now;
      assert e == o.sent[1];
    }
    ClosingTiles(c, soc0, at, o, e);
  }

  /**
    Every SESSION_STOP of every run: emitted at some tick, it closes the session open before that
    tick, at the tick or at the effective stop, and tiles its time.
   */
  lemma {:induction false} EveryStopTiles(
    st: Station, windows: seq<PeakWindow>, c: ConnectorState, start: int, eventId: string, ticks: seq<Tick>, e: Event)
    returns (n: nat, at: int)
    requires Idle(c) && Proper(start, ticks)
    requires e in Run(st, windows, c, start, eventId, ticks).sent && e.eventType.SessionStop?
    ensures n < |ticks|
    ensures var t := Run(st, windows, c, start, eventId, ticks[..n]);
            && Tiles(t.c, t.soc0, at, e)
            && (at == ticks[n].now || at == EffectiveStopAt(t.c.session.value, ticks[n].now))
  {
    n := EmittedAt(st, windows, c, start, eventId, ticks, e);
    var t := BeforeTick(st, windows, c, start, eventId, ticks, n);
    var o := StepConnector(st, windows, t.c, ticks[n].now, ticks[n].draw);
    at := TickTiles(t.c, t.soc0, t.now, ticks[n].now, ticks[n].draw, o, e);
  }

  /** All that is known of a run before its tick `n`. */
  lemma {:induction false} BeforeTick(
    st: Station, windows: seq<PeakWindow>, c: ConnectorState, start: int, eventId: string, ticks: seq<Tick>, n: nat)
    returns (t: Trace)
    requires Idle(c) && Proper(start, ticks) && n < |ticks|
    ensures t == Run(st, windows, c, start, eventId, ticks[..n]) && Sound(t, c) && t.now < ticks[n].now
    ensures Fair(ticks[n].draw)
    ensures HasShape(t.c, ticks[n].now, ticks[n].draw, StepConnector(st, windows, t.c, ticks[n].now, ticks[n].draw))
  {
    var upTo := ticks[..n + 1];
    assert upTo[..n] == ticks[..n] && upTo[n] == ticks[n];
    t := BeforeLastTick(st, windows, c, start, eventId, upTo);
    StepHasShape(st, windows, t.c, ticks[n].now, ticks[n].draw);
  }

  /**
    The reading `e` of the session of `c`, taken at `now` below a full charge and no later than
    the planned end: it closes the interval since the last reading, the intervals tile the time
    since the start, and energy past the capacity is less than this interval's increment.
   */
  predicate Extends(c: ConnectorState, soc0: real, now: int, e: Event) {
    && c.session.Some? && c.session.value.batteryKwh != 0.0
    && var s := c.session.value;
    && var s' := Advance(s, Hours(now - c.lastMeterAt));
    && Says(e, MeterUpdate, s.id, now) && e.meter.Some? && e.meter.value.energyKwh == Round3(s'.energyKwh)
    && s.startedAt <= c.lastMeterAt < now <= s.endsAt && s.soc < 100.0
    && Conserved(s', soc0, Hours(now - s.startedAt))
    && s'.energyKwh - Capacity(s, soc0) < s'.energyKwh - s.energyKwh
  }

  lemma {:induction false} MeteringExtends(
    c: ConnectorState, soc0: real, before: int, now: int, d: Draw, o: Outcome, e: Event)
    requires Fair(d) && Coherent(c) && HasShape(c, now, d, o) && before < now && Metered(c, before)
        && OpenConserved(c, soc0)
    requires e in o.sent && e.eventType.MeterUpdate?
    ensures Extends(c, soc0, now, e)
  {
    assert c.session.Some? && Meters(c, now, d, o) && e == o.sent[0];
    var s := c.session.value;
    HoursAdd(s.startedAt, c.lastMeterAt, now);
    AdvanceConserves(s, soc0, Hours(c.lastMeterAt - s.startedAt), Hours(now - c.lastMeterAt));
    MeterOvershootIsBounded(c, before, now, d, o, soc0);
  }

  /** Every METER_UPDATE of every run extends the session open before its tick. */
  lemma {:induction false} EveryReadingExtends(
    st: Station, windows: seq<PeakWindow>, c: ConnectorState, start: int, eventId: string, ticks: seq<Tick>, e: Event)
    returns (n: nat)
    requires Idle(c) && Proper(start, ticks)
    requires e in Run(st, windows, c, start, eventId, ticks).sent && e.eventType.MeterUpdate?
    ensures n < |ticks|
    ensures var t := Run(st, windows, c, start, eventId, ticks[..n]);
            Extends(t.c, t.soc0, ticks[n].now, e)
  {
    n := EmittedAt(st, windows, c, start, eventId, ticks, e);
    var t := BeforeTick(st, windows, c, start, eventId, ticks, n);
    var o := StepConnector(st, windows, t.c, ticks[n].now, ticks[n].draw);
    MeteringExtends(t.c, t.soc0, t.now, ticks[n].now, ticks[n].draw, o, e);
  }

  // ---------------------------------------------------------------------------------------
  // The stop is the last reading
  // ---------------------------------------------------------------------------------------

  /** In any event list the reader accepts, nothing of a session follows its stop. */
  lemma {:induction false} StopIsLastReading(events: seq<Event>, e: Event)
    requires Replay(events).Some? && e in events && e.eventType.SessionStop? && e.meter.Some?
    ensures e.sessionId in Replay(events).value.ended
    ensures var rs := Readings(events, e.sessionId);
            rs != [] && rs[|rs| - 1] == Reading(TimeOf(e), e.meter.value.energyKwh)
  {
    var n := |events| - 1;
    AcceptedSessionsAreSingle(events[..n], e.sessionId);
    if e in events[..n] {
      StopIsLastReading(events[..n], e);
      assert !IsReading(events[n], e.sessionId);
    } else {
      assert e == events[n];
    }
  }

  /** Every stop of every run carries the last register of its session. */
  lemma {:induction false} StopCarriesLastRegister(
    st: Station, windows: seq<PeakWindow>, c: ConnectorState, start: int, eventId: string, ticks: seq<Tick>, e: Event)
    requires Idle(c) && Proper(start, ticks)
    requires e in Run(st, windows, c, start, eventId, ticks).sent && e.eventType.SessionStop?
    ensures e.meter.Some?
    ensures var rs := Readings(Run(st, windows, c, start, eventId, ticks).sent, e.sessionId);
            rs != [] && rs[|rs| - 1] == Reading(TimeOf(e), e.meter.value.energyKwh)
  {
    EventsReplayTheConnector(st, windows, c, start, eventId, ticks);
    var n, at := EveryStopTiles(st, windows, c, start, eventId, ticks, e);
    StopIsLastReading(Run(st, windows, c, start, eventId, ticks).sent, e);
  }
}
