/**
  When a tick acts and what it then does (simulator/main.go), said without the code's own steps:
  by the guards of the connector and the events and deadlines that follow.
 */
module SimulatorTicks {
  import opened Events
  import opened ChargingModel
  import opened Simulator
  import opened SimulatorRuns
  import opened SimulatorEnergy
  import opened SimulatorReadings

  // ---------------------------------------------------------------------------------------
  // One tick
  // ---------------------------------------------------------------------------------------

  predicate Repaired(c: ConnectorState, now: int) {
    c.status.Faulted? && c.faultedUntil < now
  }

  predicate FailsIdle(c: ConnectorState, d: Draw) {
    c.status.Available? && d.faultHit
  }

  predicate Arrives(c: ConnectorState, now: int, d: Draw) {
    c.status.Available? && !d.faultHit && c.idleUntil < now
  }

  predicate FailsCharging(c: ConnectorState, d: Draw) {
    c.status.Charging? && d.faultHit
  }

  predicate Leaves(c: ConnectorState, now: int, d: Draw) {
    c.status.Charging? && !d.faultHit && c.session.Some?
        && (c.session.value.endsAt < now || 100.0 <= c.session.value.soc)
  }

  predicate Reads(c: ConnectorState, now: int, d: Draw) {
    && c.status.Charging? && !d.faultHit && c.session.Some?
    && now <= c.session.value.endsAt && c.session.value.soc < 100.0 && c.nextMeterAt < now
  }

  /** Something is due. */
  predicate Due(c: ConnectorState, now: int, d: Draw) {
    || Repaired(c, now) || FailsIdle(c, d) || Arrives(c, now, d)
    || FailsCharging(c, d) || Leaves(c, now, d) || Reads(c, now, d)
  }

  predicate OnRepair(st: Station, c: ConnectorState, now: int, d: Draw, o: Outcome) {
    && o.c == c.(status := Available, idleUntil := now + d.idleGap) && o.delta == 0
    && |o.sent| == 1 && SaysStatus(o.sent[0], st, o.c, now, Available, d.idA)
  }

  predicate OnIdleFault(st: Station, c: ConnectorState, now: int, d: Draw, o: Outcome)
    requires Fair(d)
  {
    && o.c == c.(status := Faulted, faultedUntil := now + d.downtime) && o.delta == 0
    && |o.sent| == 2 && SaysAlert(o.sent[0], st, c, now, d, d.idA)
    && SaysStatus(o.sent[1], st, o.c, now, Faulted, d.idB)
  }

  predicate OnArrival(st: Station, c: ConnectorState, now: int, d: Draw, o: Outcome)
    requires Fair(d)
  {
    && o.c.session.Some? && Opened(o.c.session.value, c, now, d) && o.delta == 1
    && o.c == c.(session := o.c.session, status := Charging, lastMeterAt := now, nextMeterAt := now + d.meterGap)
    && |o.sent| == 2 && SaysStart(o.sent[0], st, c, o.c.session.value, now, d.idA)
    && SaysStatus(o.sent[1], st, o.c, now, Charging, d.idB)
  }

  /** The session ends at `at` as `after`, and `stop` says so. */
  predicate Stops(st: Station, windows: seq<PeakWindow>, c: ConnectorState, at: int, after: Session, stop: Event,
      id: string)
    requires c.session.Some? && c.session.value.batteryKwh != 0.0
  {
    Ended(c, after, at) && SaysStop(stop, st, c, after, at, windows, id)
  }

  /** The last reading moves up to the stop unless the battery was full. */
  function LastReadingAt(c: ConnectorState, at: int): int
    requires c.session.Some?
  {
    if c.session.value.soc < 100.0 && c.lastMeterAt < at then at else c.lastMeterAt
  }

  predicate OnChargingFault(
    st: Station, windows: seq<PeakWindow>, c: ConnectorState, now: int, d: Draw, o: Outcome, after: Session)
    requires Fair(d) && c.session.Some? && c.session.value.batteryKwh != 0.0
  {
    && o.c == c.(session := None, status := Faulted, faultedUntil := now + d.downtime,
        lastMeterAt := LastReadingAt(c, now))
    && o.delta == -1 && |o.sent| == 3 && SaysAlert(o.sent[0], st, c, now, d, d.idA)
    && Stops(st, windows, c, now, after, o.sent[1], d.idB)
    && SaysStatus(o.sent[2], st, o.c, now, Faulted, d.idC)
  }

  /** A stop by duration is back-dated to the planned end, a stop on a full battery is not. */
  function DepartureAt(c: ConnectorState, now: int): int
    requires c.session.Some?
  {
    if 100.0 <= c.session.value.soc || now <= c.session.value.endsAt then now else c.session.value.endsAt
  }

  predicate OnDeparture(
    st: Station, windows: seq<PeakWindow>, c: ConnectorState, now: int, d: Draw, o: Outcome, after: Session)
    requires c.session.Some? && c.session.value.batteryKwh != 0.0
  {
    var at := DepartureAt(c, now);
    && o.c == c.(session := None, status := Available, idleUntil := now + d.idleGap,
        lastMeterAt := LastReadingAt(c, at))
    && o.delta == -1 && |o.sent| == 2
    && Stops(st, windows, c, at, after, o.sent[0], d.idA)
    && SaysStatus(o.sent[1], st, o.c, now, Available, d.idB)
  }

  predicate OnReading(st: Station, c: ConnectorState, now: int, d: Draw, o: Outcome)
    requires c.session.Some? && c.session.value.batteryKwh != 0.0
  {
    && o.c.session.Some? && Charged(c.session.value, o.c.session.value, now - c.lastMeterAt) && o.delta == 0
    && o.c == c.(session := o.c.session, lastMeterAt := now, nextMeterAt := now + d.meterGap)
    && |o.sent| == 1
    && SaysReading(o.sent[0], st, c, ChargingPower(c.session.value), o.c.session.value, now, d.idA)
  }

  /** A tick does nothing if and only if nothing is due. */
  lemma {:induction false} TickIsQuietIff(
    st: Station, windows: seq<PeakWindow>, c: ConnectorState, now: int, d: Draw)
    requires Fair(d) && Coherent(c)
    ensures StepConnector(st, windows, c, now, d) == Outcome(c, [], 0) <==> !Due(c, now, d)
  {
  }

  lemma {:induction false} TickWithoutSession(
    st: Station, windows: seq<PeakWindow>, c: ConnectorState, now: int, d: Draw)
    requires Fair(d) && Coherent(c)
    ensures var o := StepConnector(st, windows, c, now, d);
            && (Repaired(c, now) ==> OnRepair(st, c, now, d, o))
            && (FailsIdle(c, d) ==> OnIdleFault(st, c, now, d, o))
            && (Arrives(c, now, d) ==> OnArrival(st, c, now, d, o))
  {
    StartSays(st, c, now, d, d.idA);
  }

  lemma {:induction false} TickReads(
    st: Station, windows: seq<PeakWindow>, c: ConnectorState, now: int, d: Draw)
    requires Fair(d) && Coherent(c) && Reads(c, now, d) && c.lastMeterAt < now
    ensures OnReading(st, c, now, d, StepConnector(st, windows, c, now, d))
  {
    MeterSays(st, c, now, d, d.idA);
  }

  /** The session of a tick that closes one, as it ends. */
  lemma {:induction false} TickStops(
    st: Station, windows: seq<PeakWindow>, c: ConnectorState, now: int, d: Draw) returns (after: Session)
    requires Fair(d) && Coherent(c) && (FailsCharging(c, d) || Leaves(c, now, d))
    ensures var o := StepConnector(st, windows, c, now, d);
            && (FailsCharging(c, d) ==> OnChargingFault(st, windows, c, now, d, o, after))
            && (Leaves(c, now, d) ==> OnDeparture(st, windows, c, now, d, o, after))
  {
    var at := if d.faultHit then now else DepartureAt(c, now);
    after := ClosedSession(c, at);
    StopSays(st, c, at, windows, if d.faultHit then d.idB else d.idA);
  }

  // ---------------------------------------------------------------------------------------
  // Every tick of every run
  // ---------------------------------------------------------------------------------------

  /** What is new after tick `n`: nothing when nothing is due, else what the guard asks for. */
  predicate Acts(t: Trace, t': Trace, now: int, d: Draw) {
    var c, k := t.c, |t.sent|;
    && t.sent <= t'.sent
    && (t'.c == c && t'.sent == t.sent <==> !Due(c, now, d))
    && (Repaired(c, now) ==> t'.c.status == Available && |t'.sent| == k + 1)
    && (FailsIdle(c, d) ==> t'.c.status == Faulted && |t'.sent| == k + 2 && t'.sent[k].eventType == FaultAlert)
    && (Arrives(c, now, d) ==>
          && t'.c.status == Charging && t'.c.session.Some? && t'.c.session.value.id == d.sessionId
          && |t'.sent| == k + 2 && Says(t'.sent[k], SessionStart, d.sessionId, now))
    && (FailsCharging(c, d) && c.session.Some? ==>
          && t'.c.status == Faulted && t'.c.session == None
          && |t'.sent| == k + 3 && Says(t'.sent[k + 1], SessionStop, c.session.value.id, now))
    && (Leaves(c, now, d) ==>
          && t'.c.status == Available && t'.c.session == None
          && |t'.sent| == k + 2 && Says(t'.sent[k], SessionStop, c.session.value.id, DepartureAt(c, now)))
    && (Reads(c, now, d) ==>
          && t'.c.status == Charging && t'.c.session.Some? && t'.c.session.value.id == c.session.value.id
          && |t'.sent| == k + 1 && Says(t'.sent[k], MeterUpdate, c.session.value.id, now))
  }

  /** In every run a tick acts exactly when something is due, and then as its guard asks. */
  lemma {:induction false} EveryTickActs(
    st: Station, windows: seq<PeakWindow>, c: ConnectorState, start: int, eventId: string, ticks: seq<Tick>, n: nat)
    requires Idle(c) && Proper(start, ticks) && n < |ticks|
    ensures Acts(Run(st, windows, c, start, eventId, ticks[..n]), Run(st, windows, c, start, eventId, ticks[..n + 1]),
                 ticks[n].now, ticks[n].draw)
  {
    var upTo := ticks[..n + 1];
    assert upTo[..n] == ticks[..n] && upTo[n] == ticks[n];
    var t := BeforeLastTick(st, windows, c, start, eventId, upTo);
    NextActs(st, windows, t, ticks[n]);
  }

  lemma {:induction false} NextActs(st: Station, windows: seq<PeakWindow>, t: Trace, tick: Tick)
    requires Fair(tick.draw) && Coherent(t.c) && Metered(t.c, t.now) && t.now < tick.now
    ensures Acts(t, NextTrace(st, windows, t, tick), tick.now, tick.draw)
  {
    var o := OutcomeSays(st, windows, t.c, t.now, tick.now, tick.draw);
    OutcomeActs(t, o, tick.now, tick.draw, if o.delta == 1 then tick.draw.soc0 else t.soc0);
  }

  /** The part of the tick's outcome that `Acts` is about. */
  predicate Outlines(c: ConnectorState, now: int, d: Draw, o: Outcome) {
    && (o == Outcome(c, [], 0) <==> !Due(c, now, d))
    && (Due(c, now, d) ==> o.sent != [])
    && (Repaired(c, now) ==> o.c.status == Available && |o.sent| == 1)
    && (FailsIdle(c, d) ==> o.c.status == Faulted && |o.sent| == 2 && o.sent[0].eventType == FaultAlert)
    && (Arrives(c, now, d) ==>
          && o.c.status == Charging && o.c.session.Some? && o.c.session.value.id == d.sessionId
          && |o.sent| == 2 && Says(o.sent[0], SessionStart, d.sessionId, now))
    && (FailsCharging(c, d) && c.session.Some? ==>
          && o.c.status == Faulted && o.c.session == None
          && |o.sent| == 3 && Says(o.sent[1], SessionStop, c.session.value.id, now))
    && (Leaves(c, now, d) ==>
          && o.c.status == Available && o.c.session == None
          && |o.sent| == 2 && Says(o.sent[0], SessionStop, c.session.value.id, DepartureAt(c, now)))
    && (Reads(c, now, d) ==>
          && o.c.status == Charging && o.c.session.Some? && o.c.session.value.id == c.session.value.id
          && |o.sent| == 1 && Says(o.sent[0], MeterUpdate, c.session.value.id, now))
  }

  lemma {:induction false} OutcomeSays(
    st: Station, windows: seq<PeakWindow>, c: ConnectorState, before: int, now: int, d: Draw) returns (o: Outcome)
    requires Fair(d) && Coherent(c) && Metered(c, before) && before < now
    ensures o == StepConnector(st, windows, c, now, d) && Outlines(c, now, d, o)
  {
    o := StepConnector(st, windows, c, now, d);
    TickIsQuietIff(st, windows, c, now, d);
    TickWithoutSession(st, windows, c, now, d);
    if Reads(c, now, d) {
      TickReads(st, windows, c, now, d);
    }
    if FailsCharging(c, d) || Leaves(c, now, d) {
      var after := TickStops(st, windows, c, now, d);
    }
  }

  lemma {:induction false} OutcomeActs(t: Trace, o: Outcome, now: int, d: Draw, soc0: real)
    requires Outlines(t.c, now, d, o)
    ensures Acts(t, Trace(o.c, t.sent + o.sent, now, soc0), now, d)
  {
    var sent := t.sent + o.sent;
    assert forall i | 0 <= i < |o.sent| :: sent[|t.sent| + i] == o.sent[i];
    assert o.sent == [] ==> sent == t.sent;
  }

  // ---------------------------------------------------------------------------------------
  // Every bill of every run
  // ---------------------------------------------------------------------------------------

  /** The open session of a run bills by an entry of the catalog. */
  lemma {:induction false} TariffOf(
    st: Station, windows: seq<PeakWindow>, c: ConnectorState, start: int, eventId: string, ticks: seq<Tick>)
    returns (k: nat)
    requires Idle(c) && Proper(start, ticks)
    ensures BillsBy(Run(st, windows, c, start, eventId, ticks).c, k)
  {
    if ticks == [] {
      k := 0;
    } else {
      var n := |ticks| - 1;
      k := TariffOf(st, windows, c, start, eventId, ticks[..n]);
      k := LastTickKeepsTariff(st, windows, c, start, eventId, ticks, k);
    }
  }

  predicate BillsBy(c: ConnectorState, k: nat) {
    c.session.Some? ==> k < |CATALOG| && CATALOG[k].id == c.session.value.tariffId
  }

  lemma {:induction false} LastTickKeepsTariff(
    st: Station, windows: seq<PeakWindow>, c: ConnectorState, start: int, eventId: string, ticks: seq<Tick>, k: nat)
    returns (k': nat)
    requires Idle(c) && Proper(start, ticks) && ticks != []
    requires BillsBy(Run(st, windows, c, start, eventId, ticks[..|ticks| - 1]).c, k)
    ensures BillsBy(Run(st, windows, c, start, eventId, ticks).c, k')
  {
    var n := |ticks| - 1;
    var t := BeforeLastTick(st, windows, c, start, eventId, ticks);
    assert Fair(ticks[n].draw);
    k' := TickKeepsTariff(st, windows, t.c, t.now, ticks[n].now, ticks[n].draw, k);
  }

  lemma {:induction false} TickKeepsTariff(
    st: Station, windows: seq<PeakWindow>, c: ConnectorState, before: int, now: int, d: Draw, k: nat) returns (k': nat)
    requires Fair(d) && Coherent(c) && Metered(c, before) && before < now
    requires BillsBy(c, k)
    ensures BillsBy(StepConnector(st, windows, c, now, d).c, k')
  {
    k' := if Arrives(c, now, d) then d.tariff else k;
    TickIsQuietIff(st, windows, c, now, d);
    TickWithoutSession(st, windows, c, now, d);
    if Reads(c, now, d) {
      TickReads(st, windows, c, now, d);
    }
    if FailsCharging(c, d) || Leaves(c, now, d) {
      var after := TickStops(st, windows, c, now, d);
    }
  }

  /** `e` bills `energyKwh` by the entry `t`, to the cent, for a stop at `at`. */
  predicate BilledTo(e: Event, t: Tariff, energyKwh: real, at: int, windows: seq<PeakWindow>, cents: int) {
    && e.costEur == cents as real / 100.0
    && IsNearest(cents,
                 100.0 * if InWindow(at, windows) then energyKwh * (t.base * t.peakMult) else energyKwh * t.base)
    && (e.isPeakPriced <==> InWindow(at, windows) && 1.0 < t.peakMult)
  }

  lemma {:induction false} StopIsBilled(
    e: Event, st: Station, c: ConnectorState, after: Session, at: int, windows: seq<PeakWindow>, id: string, k: nat)
    returns (cents: int)
    requires SaysStop(e, st, c, after, at, windows, id) && k < |CATALOG| && CATALOG[k].id == after.tariffId
    ensures BilledTo(e, CATALOG[k], after.energyKwh, at, windows, cents)
  {
    cents := BillsInCents(e, CATALOG[k], after.energyKwh, at, windows);
  }

  lemma {:induction false} BillsInCents(e: Event, t: Tariff, energyKwh: real, at: int, windows: seq<PeakWindow>)
    returns (cents: int)
    requires Bills(e, t, energyKwh, at, windows)
    ensures BilledTo(e, t, energyKwh, at, windows, cents)
  {
    cents := CentsOf(if InWindow(at, windows) then energyKwh * (t.base * t.peakMult) else energyKwh * t.base);
  }

  lemma {:induction false} CentsOf(amount: real) returns (cents: int)
    ensures Round2(amount) == cents as real / 100.0 && IsNearest(cents, 100.0 * amount)
  {
    RoundIsNearest(amount * 100.0);
    cents := Round(amount * 100.0);
  }

  /** Where a stop of a tick comes from: when, of which session, and with which id. */
  lemma {:induction false} StopComesFrom(
    st: Station, windows: seq<PeakWindow>, c: ConnectorState, before: int, now: int, d: Draw)
    returns (at: int, after: Session, id: string)
    requires Fair(d) && Coherent(c) && c.session.Some? && Metered(c, before) && before < now
    ensures at == if d.faultHit then now else DepartureAt(c, now)
    ensures forall e | e in StepConnector(st, windows, c, now, d).sent && e.eventType.SessionStop? ::
              Ended(c, after, at) && SaysStop(e, st, c, after, at, windows, id)
  {
    at := if d.faultHit then now else DepartureAt(c, now);
    id := if d.faultHit then d.idB else d.idA;
    after := c.session.value;
    if FailsCharging(c, d) || Leaves(c, now, d) {
      after := TickStops(st, windows, c, now, d);
    } else if Reads(c, now, d) {
      TickReads(st, windows, c, now, d);
    } else {
      TickIsQuietIff(st, windows, c, now, d);
    }
  }

  /** Every SESSION_STOP of every run ends the session open before its tick. */
  lemma {:induction false} EveryStopEnds(
    st: Station, windows: seq<PeakWindow>, c: ConnectorState, start: int, eventId: string, ticks: seq<Tick>, e: Event)
    returns (n: nat, c': ConnectorState, at: int, after: Session, id: string)
    requires Idle(c) && Proper(start, ticks)
    requires e in Run(st, windows, c, start, eventId, ticks).sent && e.eventType.SessionStop?
    ensures n < |ticks| && c' == Run(st, windows, c, start, eventId, ticks[..n]).c
    ensures c'.session.Some? && c'.session.value.batteryKwh != 0.0
    ensures at == if ticks[n].draw.faultHit then ticks[n].now else DepartureAt(c', ticks[n].now)
    ensures Ended(c', after, at) && SaysStop(e, st, c', after, at, windows, id)
  {
    n := EmittedAt(st, windows, c, start, eventId, ticks, e);
    var t := BeforeTick(st, windows, c, start, eventId, ticks, n);
    c' := t.c;
    OnlySessionsStop(st, windows, c', ticks[n].now, ticks[n].draw, e);
    at, after, id := StopComesFrom(st, windows, c', t.now, ticks[n].now, ticks[n].draw);
  }

  lemma {:induction false} OnlySessionsStop(
    st: Station, windows: seq<PeakWindow>, c: ConnectorState, now: int, d: Draw, e: Event)
    requires Fair(d) && Coherent(c)
    ensures e in StepConnector(st, windows, c, now, d).sent && e.eventType.SessionStop? ==> c.session.Some?
  {
    TickIsQuietIff(st, windows, c, now, d);
    TickWithoutSession(st, windows, c, now, d);
  }

  /**
    Every SESSION_STOP of every run bills the energy of the session it ends, tail included, by the
    session's catalog entry, to the nearest cent, with the multiplier exactly inside the windows.
   */
  lemma {:induction false} EveryStopIsBilled(
    st: Station, windows: seq<PeakWindow>, c: ConnectorState, start: int, eventId: string, ticks: seq<Tick>, e: Event)
    returns (n: nat, c': ConnectorState, at: int, after: Session, k: nat, cents: int)
    requires Idle(c) && Proper(start, ticks)
    requires e in Run(st, windows, c, start, eventId, ticks).sent && e.eventType.SessionStop?
    ensures n < |ticks| && c' == Run(st, windows, c, start, eventId, ticks[..n]).c
    ensures c'.session.Some? && c'.session.value.batteryKwh != 0.0
    ensures at == if ticks[n].draw.faultHit then ticks[n].now else DepartureAt(c', ticks[n].now)
    ensures Says(e, SessionStop, c'.session.value.id, at) && Ended(c', after, at)
    ensures k < |CATALOG| && CATALOG[k].id == c'.session.value.tariffId
    ensures BilledTo(e, CATALOG[k], after.energyKwh, at, windows, cents)
  {
    var id;
    n, c', at, after, id := EveryStopEnds(st, windows, c, start, eventId, ticks, e);
    k := TariffOf(st, windows, c, start, eventId, ticks[..n]);
    cents := StopIsBilled(e, st, c', after, at, windows, id, k);
  }
}
