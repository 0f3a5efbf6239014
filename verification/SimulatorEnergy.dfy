/** Energy, charge and meter registers over every run of a connector (simulator/model.go). */
module SimulatorEnergy {
  import opened Events
  import opened ChargingModel
  import opened Simulator
  import opened SimulatorRuns

  // ---------------------------------------------------------------------------------------
  // Real arithmetic
  // ---------------------------------------------------------------------------------------

  lemma {:induction false} MulMono(k: real, a: real, b: real)
    requires 0.0 <= k && a <= b
    ensures k * a <= k * b
  {
  }

  lemma {:induction false} DivAdd(a: real, b: real, d: real)
    requires 0.0 < d
    ensures (a + b) / d == a / d + b / d
    ensures 0.0 <= a ==> 0.0 <= a / d
  {
  }

  lemma {:induction false} HoursAdd(a: int, b: int, c: int)
    ensures Hours(c - a) == Hours(b - a) + Hours(c - b)
    ensures a <= b ==> 0.0 <= Hours(b - a)
    ensures a < b ==> 0.0 < Hours(b - a)
  {
  }

  // ---------------------------------------------------------------------------------------
  // Conservation
  // ---------------------------------------------------------------------------------------

  /** Charge accounts for energy, and energy lies between 8 % and 100 % of the target over `hours`. */
  predicate Conserved(s: Session, soc0: real, hours: real) {
    && 60.0 <= s.batteryKwh && 0.0 < s.targetKw <= 250.0 && 10.0 <= soc0 <= 50.0
    && 0.0 <= s.energyKwh
    && s.soc == Min(100.0, soc0 + (s.energyKwh / s.batteryKwh) * 100.0)
    && (0.08 * s.targetKw) * hours <= s.energyKwh <= s.targetKw * hours
  }

  /** The energy that fills the pack. */
  function Capacity(s: Session, soc0: real): real {
    s.batteryKwh * ((100.0 - soc0) / 100.0)
  }

  lemma {:induction false} PowerBounds(s: Session)
    requires 0.0 < s.targetKw && 0.0 <= s.soc <= 100.0
    ensures 0.08 * s.targetKw <= ChargingPower(s) <= s.targetKw
  {
    if s.soc >= 80.0 {
      var q := 0.08 + 0.92 * ((100.0 - s.soc) / 20.0);
      assert 0.08 <= q <= 1.0;
      MulMono(s.targetKw, 0.08, q);
      MulMono(s.targetKw, q, 1.0);
    }
  }

  lemma {:induction false} SocInRange(s: Session, soc0: real, hours: real)
    requires Conserved(s, soc0, hours)
    ensures 10.0 <= s.soc <= 100.0
  {
  }

  /** Adding `p * dt` keeps an energy within the band spanned by `lo` and `hi`. */
  lemma {:induction false} BandAdd(lo: real, p: real, hi: real, hours: real, dt: real, energy: real)
    requires lo <= p <= hi && 0.0 <= dt
    requires lo * hours <= energy <= hi * hours
    ensures lo * (hours + dt) <= energy + p * dt <= hi * (hours + dt)
  {
  }

  lemma {:induction false} ChargeAdd(energy: real, added: real, battery: real, soc0: real, soc: real)
    requires 0.0 < battery && 0.0 <= added
    requires soc == Min(100.0, soc0 + (energy / battery) * 100.0)
    ensures Min(100.0, soc + (added / battery) * 100.0) == Min(100.0, soc0 + ((energy + added) / battery) * 100.0)
  {
    DivAdd(energy, added, battery);
    DivAdd(added, 0.0, battery);
  }

  lemma {:induction false} DeliverConserves(s: Session, soc0: real, hours: real, p: real, dt: real)
    requires Conserved(s, soc0, hours) && 0.0 <= dt && 0.08 * s.targetKw <= p <= s.targetKw
    ensures Conserved(Deliver(s, p * dt), soc0, hours + dt)
    ensures s.energyKwh <= Deliver(s, p * dt).energyKwh
  {
    MulMono(dt, 0.0, p);
    BandAdd(0.08 * s.targetKw, p, s.targetKw, hours, dt, s.energyKwh);
    ChargeAdd(s.energyKwh, p * dt, s.batteryKwh, soc0, s.soc);
  }

  lemma {:induction false} PowerInBand(s: Session, dt: real) returns (r: Session, p: real)
    requires 0.0 < s.targetKw && 0.0 <= s.soc <= 100.0 && s.batteryKwh != 0.0
    ensures 0.08 * s.targetKw <= p <= s.targetKw
    ensures r == Advance(s, dt) == Deliver(s, p * dt)
  {
    PowerBounds(s);
    r, p := AdvanceDelivers(s, dt);
  }

  lemma {:induction false} AdvanceDelivers(s: Session, dt: real) returns (r: Session, p: real)
    requires s.batteryKwh != 0.0
    ensures p == ChargingPower(s) && r == Advance(s, dt) == Deliver(s, p * dt)
  {
    p := ChargingPower(s);
    r := Deliver(s, ChargingPower(s) * dt);
  }

  lemma {:induction false} AdvanceConserves(s: Session, soc0: real, hours: real, dt: real)
    requires Conserved(s, soc0, hours) && 0.0 <= dt
    ensures Conserved(Advance(s, dt), soc0, hours + dt)
    ensures s.energyKwh <= Advance(s, dt).energyKwh
  {
    SocInRange(s, soc0, hours);
    var r, p := PowerInBand(s, dt);
    DeliverConserves(s, soc0, hours, p, dt);
    assert Conserved(r, soc0, hours + dt);
  }

  /** Below a full charge, less than the capacity has been delivered. */
  lemma {:induction false} NotFullIsBelowCapacity(s: Session, soc0: real, hours: real)
    requires Conserved(s, soc0, hours)
    ensures s.soc < 100.0 <==> s.energyKwh < Capacity(s, soc0)
  {
  }

  /** The open session of a connector is conserved up to its last reading. */
  predicate OpenConserved(c: ConnectorState, soc0: real) {
    c.session.Some? ==> Conserved(c.session.value, soc0, Hours(c.lastMeterAt - c.session.value.startedAt))
  }

  lemma {:induction false} NewSessionConserved(c: ConnectorState, now: int, d: Draw)
    requires Fair(d) && 0.0 < c.rating
    ensures Conserved(NewSession(c, now, d), d.soc0, Hours(now - now))
  {
  }

  lemma {:induction false} ShapeConserves(c: ConnectorState, before: int, now: int, d: Draw, o: Outcome, soc0: real)
    requires Fair(d) && Coherent(c) && HasShape(c, now, d, o) && 0.0 < c.rating
    requires Metered(c, before) && OpenConserved(c, soc0)
    ensures OpenConserved(o.c, if o.delta == 1 then d.soc0 else soc0)
  {
    if Starts(c, now, d, o) {
      NewSessionConserved(c, now, d);
    } else if c.session.Some? && Meters(c, now, d, o) {
      var s := c.session.value;
      HoursAdd(s.startedAt, c.lastMeterAt, now);
      AdvanceConserves(s, soc0, Hours(c.lastMeterAt - s.startedAt), Hours(now - c.lastMeterAt));
    }
  }

  lemma {:induction false} StepKeepsRating(st: Station, windows: seq<PeakWindow>, c: ConnectorState, now: int, d: Draw)
    requires Fair(d) && Coherent(c)
    ensures var o := StepConnector(st, windows, c, now, d);
            o.c.rating == c.rating && o.c.id == c.id && o.c.dc == c.dc
  {
  }

  /** The state of affairs after any run. */
  predicate Sound(t: Trace, c0: ConnectorState) {
    && Coherent(t.c) && Metered(t.c, t.now) && OpenConserved(t.c, t.soc0)
    && t.c.rating == c0.rating && t.c.id == c0.id && t.c.dc == c0.dc
  }

  lemma {:induction false} NextConserves(st: Station, windows: seq<PeakWindow>, t: Trace, tick: Tick)
    requires Fair(tick.draw) && Coherent(t.c) && 0.0 < t.c.rating
    requires Metered(t.c, t.now) && OpenConserved(t.c, t.soc0)
    ensures var t' := NextTrace(st, windows, t, tick);
            OpenConserved(t'.c, t'.soc0)
  {
    StepHasShape(st, windows, t.c, tick.now, tick.draw);
    ShapeConserves(t.c, t.now, tick.now, tick.draw, StepConnector(st, windows, t.c, tick.now, tick.draw), t.soc0);
  }

  /**
    In every reachable open session, charge is min(100, initial charge + delivered share of the
    battery) and energy lies between 8 % and 100 % of the target power over the metered time.
   */
  lemma {:induction false} EnergyIsConserved(
    st: Station, windows: seq<PeakWindow>, c: ConnectorState, start: int, eventId: string, ticks: seq<Tick>)
    requires Idle(c) && Proper(start, ticks)
    ensures Sound(Run(st, windows, c, start, eventId, ticks), c)
  {
    EmissionIsInEventTimeOrder(st, windows, c, start, eventId, ticks);
    if ticks != [] {
      var n := |ticks| - 1;
      EnergyIsConserved(st, windows, c, start, eventId, ticks[..n]);
      var t := Run(st, windows, c, start, eventId, ticks[..n]);
      NextConserves(st, windows, t, ticks[n]);
      StepKeepsRating(st, windows, t.c, ticks[n].now, ticks[n].draw);
    }
  }

  /**
    Closing a session at `at`, no earlier than its last reading: below a full charge the tail
    tiles the time up to the stop exactly, and energy past the capacity is less than that tail;
    at a full charge nothing is added.
   */
  lemma {:induction false} ClosingIsConserved(c: ConnectorState, soc0: real, at: int)
    requires Coherent(c) && c.session.Some? && OpenConserved(c, soc0)
    requires c.session.value.startedAt <= c.lastMeterAt <= at
    ensures var s, closed, c' := c.session.value, ClosedSession(c, at), StopSession(c, at);
            && Conserved(closed, soc0, Hours(c'.lastMeterAt - s.startedAt))
            && s.energyKwh <= closed.energyKwh
            && (s.soc < 100.0 ==> c'.lastMeterAt == at)
            && (s.soc < 100.0 ==> closed.energyKwh - Capacity(s, soc0) < closed.energyKwh - s.energyKwh)
            && (s.soc >= 100.0 ==> closed == s)
  {
    var s := c.session.value;
    var hours := Hours(c.lastMeterAt - s.startedAt);
    NotFullIsBelowCapacity(s, soc0, hours);
    if s.soc < 100.0 && c.lastMeterAt < at {
      HoursAdd(s.startedAt, c.lastMeterAt, at);
      AdvanceConserves(s, soc0, hours, Hours(at - c.lastMeterAt));
    }
  }

  /** A METER_UPDATE is only taken below a full charge, so its overshoot is less than its increment. */
  lemma {:induction false} MeterOvershootIsBounded(
    c: ConnectorState, before: int, now: int, d: Draw, o: Outcome, soc0: real)
    requires Fair(d) && Coherent(c) && c.session.Some? && Metered(c, before) && OpenConserved(c, soc0)
    ensures Meters(c, now, d, o) ==>
              var s, s' := c.session.value, o.c.session.value;
              && o.c.lastMeterAt == now
              && s'.energyKwh - Capacity(s, soc0) < s'.energyKwh - s.energyKwh
              && s'.energyKwh - s.energyKwh == ChargingPower(s) * Hours(now - c.lastMeterAt)
  {
    NotFullIsBelowCapacity(c.session.value, soc0, Hours(c.lastMeterAt - c.session.value.startedAt));
  }

  // ---------------------------------------------------------------------------------------
  // Meter registers
  // ---------------------------------------------------------------------------------------

  lemma {:induction false} RoundMono(x: real, y: real)
    requires x <= y
    ensures Round(x) <= Round(y)
    ensures 0.0 <= x ==> 0 <= Round(x)
  {
  }

  lemma {:induction false} Round3Mono(x: real, y: real)
    requires x <= y
    ensures Round3(x) <= Round3(y)
    ensures Round3(0.0) == 0.0
  {
    RoundMono(x * 1000.0, y * 1000.0);
  }

  /** One reading of the cumulative energy register. */
  datatype Reading = Reading(ts: int, energyKwh: real)

  predicate IsReading(e: Event, sessionId: string) {
    && (e.eventType.SessionStart? || e.eventType.MeterUpdate? || e.eventType.SessionStop?)
    && e.sessionId == sessionId && e.meter.Some?
  }

  function Readings(events: seq<Event>, sessionId: string): seq<Reading> {
    if events == [] then []
    else
      var e := events[|events| - 1];
      var rest := Readings(events[..|events| - 1], sessionId);
      if IsReading(e, sessionId) then rest + [Reading(TimeOf(e), e.meter.value.energyKwh)] else rest
  }

  predicate Rising(rs: seq<Reading>) {
    forall i, j | 0 <= i < j < |rs| :: rs[i].energyKwh <= rs[j].energyKwh
  }

  predicate Apart(rs: seq<Reading>) {
    forall i, j | 0 <= i < j < |rs| :: rs[i].ts < rs[j].ts
  }

  /** In order of time; only the last reading may share its millisecond with the one before. */
  predicate Timed(rs: seq<Reading>) {
    && (rs != [] ==> Apart(rs[..|rs| - 1]))
    && (|rs| > 1 ==> rs[|rs| - 2].ts <= rs[|rs| - 1].ts)
  }

  /** Registers rise in order of time, and the open session's last one is its rounded energy. */
  predicate RegistersRise(events: seq<Event>, c: ConnectorState, used: set<string>, id: string) {
    var rs := Readings(events, id);
    && Rising(rs) && Timed(rs)
    && (rs != [] ==> rs[0].energyKwh == 0.0 && id in used)
    && (c.session.Some? && c.session.value.id == id ==>
          && rs != [] && rs[|rs| - 1] == Reading(Millis(c.lastMeterAt), Round3(c.session.value.energyKwh))
          && Apart(rs))
  }

  lemma {:induction false} ReadingsSnoc(events: seq<Event>, e: Event, id: string)
    ensures Readings(events + [e], id)
            == Readings(events, id) + (if IsReading(e, id) then [Reading(TimeOf(e), e.meter.value.energyKwh)] else [])
  {
  }

  lemma {:induction false} RisingSnoc(rs: seq<Reading>, r: Reading)
    requires Rising(rs) && (rs != [] ==> rs[|rs| - 1].energyKwh <= r.energyKwh)
    ensures Rising(rs + [r])
  {
  }

  lemma {:induction false} TimedSnoc(rs: seq<Reading>, r: Reading)
    requires rs != [] && Apart(rs) && rs[|rs| - 1].ts <= r.ts
    ensures Timed(rs + [r]) && (rs[|rs| - 1].ts < r.ts ==> Apart(rs + [r]))
  {
  }

  lemma {:induction false} StartRegister(
    c: ConnectorState, now: int, d: Draw, o: Outcome, events: seq<Event>, used: set<string>, id: string)
    requires Fair(d) && Coherent(c) && Starts(c, now, d, o) && d.sessionId !in used
    requires RegistersRise(events, c, used, id)
    ensures RegistersRise(events + o.sent, o.c, used + {d.sessionId}, id)
  {
    SingleReading(events, o.sent, 0, id);
    FirstRegister(c, o.sent[0], o.c, events, o.sent, used, id);
  }

  /** The reading that opens a session. */
  lemma {:induction false} FirstRegister(
    c: ConnectorState, e: Event, c': ConnectorState, events: seq<Event>, more: seq<Event>, used: set<string>,
    id: string)
    requires c'.session.Some? && c'.session.value.id !in used && c'.session.value.energyKwh == 0.0
    requires IsReading(e, c'.session.value.id) && e.meter.value.energyKwh == 0.0 && TimeOf(e) == Millis(c'.lastMeterAt)
    requires Readings(events + more, id) == Readings(events, id)
               + (if IsReading(e, id) then [Reading(TimeOf(e), e.meter.value.energyKwh)] else [])
    requires RegistersRise(events, c, used, id)
    ensures RegistersRise(events + more, c', used + {c'.session.value.id}, id)
  {
    Round3Mono(0.0, 0.0);
  }

  /** A reading of the open session that is no lower than its energy so far. */
  lemma {:induction false} NextRegister(
    c: ConnectorState, e: Event, energy: real, c': ConnectorState,
    events: seq<Event>, more: seq<Event>, used: set<string>, used': set<string>, id: string)
    requires Coherent(c) && c.session.Some? && c.session.value.id in used && used <= used'
    requires IsReading(e, c.session.value.id) && e.meter.value.energyKwh == Round3(energy)
    requires c.session.value.energyKwh <= energy && Millis(c.lastMeterAt) <= TimeOf(e)
    requires Readings(events + more, id) == Readings(events, id)
               + (if IsReading(e, id) then [Reading(TimeOf(e), e.meter.value.energyKwh)] else [])
    requires c'.session.Some? ==>
               && c'.session.value.id == c.session.value.id && c'.session.value.energyKwh == energy
               && Millis(c.lastMeterAt) < TimeOf(e) == Millis(c'.lastMeterAt)
    requires RegistersRise(events, c, used, id)
    ensures RegistersRise(events + more, c', used', id)
  {
    Round3Mono(c.session.value.energyKwh, energy);
    if IsReading(e, id) {
      var rs, r := Readings(events, id), Reading(TimeOf(e), e.meter.value.energyKwh);
      RisingSnoc(rs, r);
      TimedSnoc(rs, r);
    }
  }

  lemma {:induction false} MeterRegister(
    c: ConnectorState, before: int, now: int, d: Draw, o: Outcome, soc0: real, events: seq<Event>,
    used: set<string>, id: string)
    requires Fair(d) && Coherent(c) && c.session.Some? && Meters(c, now, d, o)
    requires before < now && Metered(c, before) && OpenConserved(c, soc0)
    requires RegistersRise(events, c, used, id) && c.session.value.id in used
    ensures RegistersRise(events + o.sent, o.c, used + {d.sessionId}, id)
  {
    var s := c.session.value;
    HoursAdd(c.lastMeterAt, now, now);
    AdvanceConserves(s, soc0, Hours(c.lastMeterAt - s.startedAt), Hours(now - c.lastMeterAt));
    ReadingsSnoc(events, o.sent[0], id);
    assert o.sent == [o.sent[0]];
    NextRegister(c, o.sent[0], o.c.session.value.energyKwh, o.c, events, o.sent, used, used + {d.sessionId}, id);
  }

  lemma {:induction false} SingleReading(events: seq<Event>, more: seq<Event>, k: nat, id: string)
    requires k < |more|
    requires forall i | 0 <= i < |more| && i != k :: !IsReading(more[i], id)
    ensures Readings(events + more, id) == Readings(events, id)
              + (if IsReading(more[k], id) then [Reading(TimeOf(more[k]), more[k].meter.value.energyKwh)] else [])
  {
    var head, tail := more[..k], more[k + 1..];
    ReadingsNone(events, head, id);
    ReadingsSnoc(events + head, more[k], id);
    ReadingsNone(events + head + [more[k]], tail, id);
    assert events + more == events + head + [more[k]] + tail;
  }

  /** A stop event followed by its STATUS_CHANGE, and possibly preceded by an alert. */
  lemma {:induction false} StopRegister(
    c: ConnectorState, at: int, o: Outcome, stop: Event, k: nat, soc0: real,
    events: seq<Event>, used: set<string>, used': set<string>, id: string)
    requires Coherent(c) && c.session.Some? && c.session.value.startedAt <= c.lastMeterAt <= at
    requires OpenConserved(c, soc0) && Closes(c, at, o, stop)
    requires k < |o.sent| && o.sent[k] == stop
    requires forall i | 0 <= i < |o.sent| && i != k ::
        o.sent[i].eventType.FaultAlert? || o.sent[i].eventType.StatusChange?
    requires RegistersRise(events, c, used, id) && c.session.value.id in used && used <= used'
    ensures RegistersRise(events + o.sent, o.c, used', id)
  {
    ClosingIsConserved(c, soc0, at);
    SingleReading(events, o.sent, k, id);
    NextRegister(c, stop, ClosedSession(c, at).energyKwh, o.c, events, o.sent, used, used', id);
  }

  lemma {:induction false} SessionRegisters(
    c: ConnectorState, before: int, now: int, d: Draw, o: Outcome, soc0: real, events: seq<Event>,
    used: set<string>, id: string)
    requires Fair(d) && Coherent(c) && c.session.Some?
    requires Aborts(c, now, o) || Finishes(c, now, o) || Meters(c, now, d, o)
    requires before < now && Metered(c, before) && OpenConserved(c, soc0)
    requires RegistersRise(events, c, used, id) && c.session.value.id in used
    ensures RegistersRise(events + o.sent, o.c, used + {d.sessionId}, id)
  {
    if Meters(c, now, d, o) {
      MeterRegister(c, before, now, d, o, soc0, events, used, id);
    } else if Aborts(c, now, o) {
      StopRegister(c, now, o, o.sent[1], 1, soc0, events, used, used + {d.sessionId}, id);
    } else {
      StopRegister(c, EffectiveStopAt(c.session.value, now), o, o.sent[0], 0, soc0, events, used,
          used + {d.sessionId}, id);
    }
  }

  lemma {:induction false} ReadingsNone(events: seq<Event>, more: seq<Event>, id: string)
    requires forall i | 0 <= i < |more| :: !IsReading(more[i], id)
    ensures Readings(events + more, id) == Readings(events, id)
  {
    if more == [] {
      assert events + more == events;
    } else {
      var n := |more| - 1;
      assert (events + more)[..|events + more| - 1] == events + more[..n];
      ReadingsNone(events, more[..n], id);
    }
  }

  lemma {:induction false} NoRegister(
    c: ConnectorState, now: int, d: Draw, o: Outcome, events: seq<Event>, used: set<string>, id: string)
    requires Coherent(c) && (Quiet(c, o) || Recovers(c, now, o) || Breaks(c, now, o))
    requires RegistersRise(events, c, used, id)
    ensures RegistersRise(events + o.sent, o.c, used + {d.sessionId}, id)
  {
    ReadingsNone(events, o.sent, id);
  }

  lemma {:induction false} ShapeRaisesRegisters(
    c: ConnectorState, before: int, now: int, d: Draw, o: Outcome, soc0: real, events: seq<Event>,
    used: set<string>, id: string)
    requires Fair(d) && Coherent(c) && HasShape(c, now, d, o) && d.sessionId !in used
    requires before < now && Metered(c, before) && OpenConserved(c, soc0)
    requires RegistersRise(events, c, used, id) && (c.session.Some? ==> c.session.value.id in used)
    ensures RegistersRise(events + o.sent, o.c, used + {d.sessionId}, id)
  {
    if Starts(c, now, d, o) {
      StartRegister(c, now, d, o, events, used, id);
    } else if c.session.Some? && (Aborts(c, now, o) || Finishes(c, now, o) || Meters(c, now, d, o)) {
      SessionRegisters(c, before, now, d, o, soc0, events, used, id);
    } else {
      NoRegister(c, now, d, o, events, used, id);
    }
  }

  lemma {:induction false} NextRaisesRegisters(
    st: Station, windows: seq<PeakWindow>, t: Trace, tick: Tick, used: set<string>, id: string)
    requires Fair(tick.draw) && Coherent(t.c) && tick.draw.sessionId !in used && t.now < tick.now
    requires Metered(t.c, t.now) && OpenConserved(t.c, t.soc0)
    requires RegistersRise(t.sent, t.c, used, id) && (t.c.session.Some? ==> t.c.session.value.id in used)
    ensures var t' := NextTrace(st, windows, t, tick);
            RegistersRise(t'.sent, t'.c, used + {tick.draw.sessionId}, id)
  {
    StepHasShape(st, windows, t.c, tick.now, tick.draw);
    ShapeRaisesRegisters(t.c, t.now, tick.now, tick.draw, StepConnector(st, windows, t.c, tick.now, tick.draw),
                         t.soc0, t.sent, used, id);
  }

  lemma {:induction false} BeginHasNoRegisters(st: Station, c: ConnectorState, now: int, eventId: string, id: string)
    requires Idle(c)
    ensures RegistersRise(Begin(st, c, now, eventId).sent, c, {}, id)
  {
  }

  /** In every run and for every session id, the emitted registers start at 0 and never fall. */
  lemma {:induction false} RegistersNeverFall(
    st: Station, windows: seq<PeakWindow>, c: ConnectorState, start: int, eventId: string, ticks: seq<Tick>, id: string)
    requires Idle(c) && Proper(start, ticks)
    ensures var t := Run(st, windows, c, start, eventId, ticks);
            RegistersRise(t.sent, t.c, IdsDrawn(ticks), id)
  {
    if ticks == [] {
      BeginHasNoRegisters(st, c, start, eventId, id);
    } else {
      var n := |ticks| - 1;
      RegistersNeverFall(st, windows, c, start, eventId, ticks[..n], id);
      DrawnSnoc(ticks);
      var t := BeforeLastTick(st, windows, c, start, eventId, ticks);
      NextRaisesRegisters(st, windows, t, ticks[n], IdsDrawn(ticks[..n]), id);
    }
  }

  /** All that is known of a run before its last tick. */
  lemma {:induction false} BeforeLastTick(
    st: Station, windows: seq<PeakWindow>, c: ConnectorState, start: int, eventId: string, ticks: seq<Tick>)
    returns (t: Trace)
    requires Idle(c) && Proper(start, ticks) && ticks != []
    ensures var n := |ticks| - 1;
            && t == Run(st, windows, c, start, eventId, ticks[..n])
            && Sound(t, c) && t.now < ticks[n].now
            && (t.c.session.Some? ==> t.c.session.value.id in IdsDrawn(ticks[..n]))
            && Run(st, windows, c, start, eventId, ticks) == NextTrace(st, windows, t, ticks[n])
  {
    var n := |ticks| - 1;
    t := Run(st, windows, c, start, eventId, ticks[..n]);
    EventsReplayTheConnector(st, windows, c, start, eventId, ticks[..n]);
    EmissionIsInEventTimeOrder(st, windows, c, start, eventId, ticks[..n]);
    EnergyIsConserved(st, windows, c, start, eventId, ticks[..n]);
    assert n > 0 ==> ticks[..n][n - 1] == ticks[n - 1];
  }
}
