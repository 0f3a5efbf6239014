/**
  The validator never rejects the simulator: every event of every run passes Validate against
  the registry seeded from the same roster.
 */
module SimulatorAccepted {
  import opened Events
  import opened Validation
  import opened ChargingModel
  import opened Simulator
  import opened SimulatorRuns
  import opened SimulatorEnergy
  import opened Roster

  /** The configuration: named operators and cities, coordinates that stay in range when jittered. */
  predicate GoodSite(d: SiteDraw) {
    && d.operatorId != "" && d.city.name != ""
    && -0.06 <= d.latJitter <= 0.06 && -0.06 <= d.lonJitter <= 0.06
    && -89.94 <= d.city.lat <= 89.94 && -179.94 <= d.city.lon <= 179.94
  }

  predicate GoodSites(draws: seq<SiteDraw>) {
    forall i | 0 <= i < |draws| :: GoodSite(draws[i])
  }

  /** The registry row of a station that the simulator built. */
  predicate Registered(st: Station, connectors: int, view: View) {
    && view.tariffs == SeededTariffs()
    && st.id in view.stations
    && view.stations[st.id] == StationMeta(connectors, st.operatorId, st.city, st.country, st.lat, st.lon)
    && st.operatorId != "" && st.city != "" && st.country != ""
    && -90.0 <= st.lat <= 90.0 && -180.0 <= st.lon <= 180.0
  }

  lemma {:induction false} SitesAreRegistered(sites: seq<Site>, draws: seq<SiteDraw>, i: nat)
    requires BuiltFrom(sites, draws) && GoodSites(draws) && i < |sites|
    ensures Registered(sites[i].st, |sites[i].ratings|, Seeded(sites))
  {
    NumbersNeverRepeat(sites, draws);
    SeededKnows(sites, i);
    assert sites[i] == SiteFor(draws[i], NumberAt(draws, i));
    assert GoodSite(draws[i]);
  }

  predicate GoodIds(d: Draw) {
    ValidEventId(d.idA) && ValidEventId(d.idB) && ValidEventId(d.idC)
  }

  /** Carries the station's identity, a fresh id and a time; what BaseEvent provides. */
  predicate Identified(e: Event, st: Station, connectors: int) {
    && e.eventId != "" && ValidEventId(e.eventId) && !e.eventType.OtherType? && e.stationId == st.id
    && e.timestamp.Some? && e.operatorId == st.operatorId
    && e.location == Location(st.lat, st.lon, st.city, st.country)
    && (if e.eventType.Heartbeat? then e.connectorId == 0 else 1 <= e.connectorId <= connectors)
  }

  lemma {:induction false} IdentityPasses(e: Event, st: Station, connectors: int, view: View)
    requires Registered(st, connectors, view) && Identified(e, st, connectors)
    requires e.tariffId == "" || e.tariffId in SeededTariffs()
    requires CheckByType(e) == None && (e.meter.Some? ==> ValidateMeter(e.meter.value) == None)
    ensures Validate(e, view) == Accepted(e.timestamp.value)
  {
  }

  // ---------------------------------------------------------------------------------------
  // One lemma per kind of event
  // ---------------------------------------------------------------------------------------

  predicate Passes(e: Event, view: View) {
    e.timestamp.Some? && Validate(e, view) == Accepted(e.timestamp.value)
  }

  predicate AllPass(events: seq<Event>, view: View) {
    forall i | 0 <= i < |events| :: Passes(events[i], view)
  }

  lemma {:induction false} StatusPasses(
    st: Station, n: int, view: View, c: ConnectorState, now: int, status: Status, id: string)
    requires Registered(st, n, view) && 1 <= c.id <= n && ValidEventId(id)
    requires status.Available? || status.Charging? || status.Faulted?
    ensures Passes(StatusEvent(st, c, now, status, id), view)
  {
  }

  lemma {:induction false} AlertPasses(
    st: Station, n: int, view: View, c: ConnectorState, now: int, d: Draw, id: string)
    requires Registered(st, n, view) && 1 <= c.id <= n && ValidEventId(id) && Fair(d)
    ensures Passes(AlertEvent(st, c, now, d, id), view)
  {
  }

  lemma {:induction false} HeartbeatPasses(st: Station, n: int, view: View, now: int, id: string)
    requires Registered(st, n, view) && ValidEventId(id)
    ensures Passes(HeartbeatEvent(st, now, id), view)
  {
  }

  lemma {:induction false} CatalogIsSound()
    ensures forall i | 0 <= i < |CATALOG| :: CATALOG[i].id != "" && 0.0 < CATALOG[i].base && 0.0 < CATALOG[i].peakMult
  {
  }

  /** The session has an id and bills by a seeded tariff. */
  predicate Licensed(c: ConnectorState) {
    c.session.Some? ==>
      && c.session.value.id != "" && c.session.value.tariffId != "" && c.session.value.tariffId in SeededTariffs()
  }

  lemma {:induction false} StartPasses(
    st: Station, n: int, view: View, c: ConnectorState, now: int, d: Draw, id: string)
    requires Registered(st, n, view) && 1 <= c.id <= n && ValidEventId(id) && Fair(d)
    ensures Passes(StartEvent(st, c, now, d, id), view)
    ensures NewSession(c, now, d).tariffId != "" && NewSession(c, now, d).tariffId in SeededTariffs()
  {
    FleetIsSound();
    CatalogIsSound();
    assert CATALOG[d.tariff].id in SeededTariffs();
    IdentityPasses(StartEvent(st, c, now, d, id), st, n, view);
  }

  lemma {:induction false} MeterPasses(
    st: Station, n: int, view: View, c: ConnectorState, now: int, d: Draw, id: string, soc0: real)
    requires Registered(st, n, view) && 1 <= c.id <= n && ValidEventId(id)
    requires Coherent(c) && c.session.Some? && Licensed(c) && OpenConserved(c, soc0)
    requires c.lastMeterAt < now
    ensures Passes(MeterEvent(st, c, now, d, id), view)
  {
    var s := c.session.value;
    var hours := Hours(c.lastMeterAt - s.startedAt);
    SocInRange(s, soc0, hours);
    PowerBounds(s);
    HoursAdd(c.lastMeterAt, now, now);
    AdvanceConserves(s, soc0, hours, Hours(now - c.lastMeterAt));
    MeterValuesPass(Advance(s, Hours(now - c.lastMeterAt)), soc0, hours + Hours(now - c.lastMeterAt),
        ChargingPower(s), c.dc);
    IdentityPasses(MeterEvent(st, c, now, d, id), st, n, view);
  }

  lemma {:induction false} MeterValuesPass(s: Session, soc0: real, hours: real, power: real, dc: bool)
    requires Conserved(s, soc0, hours) && 0.0 <= power <= 250.0
    ensures ValidateMeter(Meter(Round1(power), Round3(s.energyKwh), NominalVoltage(dc),
                                Round1(power * 1000.0 / NominalVoltage(dc)), s.soc.Floor)) == None
    ensures ValidateMeter(Meter(0.0, Round3(s.energyKwh), NominalVoltage(dc), 0.0, s.soc.Floor)) == None
  {
  }

  lemma {:induction false} TariffIsNotNegative(catalog: seq<Tariff>, id: string)
    requires forall i | 0 <= i < |catalog| :: 0.0 <= catalog[i].base && 0.0 <= catalog[i].peakMult
    ensures 0.0 <= FindTariff(catalog, id).base && 0.0 <= FindTariff(catalog, id).peakMult
  {
    if catalog != [] {
      TariffIsNotNegative(catalog[..|catalog| - 1], id);
    }
  }

  lemma {:induction false} RateIsNotNegative(id: string, at: int, windows: seq<PeakWindow>)
    ensures 0.0 <= Rate(FindTariff(CATALOG, id), at, windows)
  {
    CatalogIsSound();
    TariffIsNotNegative(CATALOG, id);
    var t := FindTariff(CATALOG, id);
    MulMono(t.base, 0.0, t.peakMult);
  }

  lemma {:induction false} CostIsNotNegative(energy: real, rate: real)
    requires 0.0 <= energy && 0.0 <= rate
    ensures 0.0 <= Round2(Cost(energy, rate))
  {
  }

  lemma {:induction false} StopPasses(
    st: Station, n: int, view: View, c: ConnectorState, at: int, windows: seq<PeakWindow>, id: string, soc0: real)
    requires Registered(st, n, view) && 1 <= c.id <= n && ValidEventId(id)
    requires Coherent(c) && c.session.Some? && Licensed(c) && OpenConserved(c, soc0)
    requires c.session.value.startedAt <= c.lastMeterAt <= at
    ensures Passes(StopEvent(st, c, at, windows, id), view)
  {
    ClosingIsConserved(c, soc0, at);
    var s := ClosedSession(c, at);
    var hours := Hours(StopSession(c, at).lastMeterAt - c.session.value.startedAt);
    MeterValuesPass(s, soc0, hours, 0.0, c.dc);
    RateIsNotNegative(s.tariffId, at, windows);
    CostIsNotNegative(s.energyKwh, Rate(FindTariff(CATALOG, s.tariffId), at, windows));
    IdentityPasses(StopEvent(st, c, at, windows, id), st, n, view);
  }

  // ---------------------------------------------------------------------------------------
  // Ticks and runs
  // ---------------------------------------------------------------------------------------

  lemma {:induction false} TickPasses(
    st: Station, n: int, view: View, windows: seq<PeakWindow>, c: ConnectorState, before: int, now: int, d: Draw,
    soc0: real)
    requires Registered(st, n, view) && 1 <= c.id <= n && Fair(d) && GoodIds(d) && before < now
    requires Coherent(c) && Licensed(c) && Metered(c, before) && OpenConserved(c, soc0)
    ensures AllPass(StepConnector(st, windows, c, now, d).sent, view)
  {
    match c.status
    case Faulted =>
      StatusPasses(st, n, view, c.(status := Available, idleUntil := now + d.idleGap), now, Available, d.idA);
    case Available =>
      AlertPasses(st, n, view, c, now, d, d.idA);
      StatusPasses(st, n, view, c.(status := Faulted, faultedUntil := now + d.downtime), now, Faulted, d.idB);
      StartPasses(st, n, view, c, now, d, d.idA);
      StatusPasses(st, n, view, StartSession(c, now, d), now, Charging, d.idB);
    case Charging =>
      ChargingPasses(st, n, view, windows, c, before, now, d, soc0);
  }

  lemma {:induction false} ChargingPasses(
    st: Station, n: int, view: View, windows: seq<PeakWindow>, c: ConnectorState, before: int, now: int, d: Draw,
    soc0: real)
    requires Registered(st, n, view) && 1 <= c.id <= n && Fair(d) && GoodIds(d) && before < now
    requires Coherent(c) && c.status.Charging? && Licensed(c) && Metered(c, before) && OpenConserved(c, soc0)
    ensures AllPass(FromCharging(st, windows, c, now, d).sent, view)
  {
    if d.faultHit {
      AbortPasses(st, n, view, windows, c, now, d, soc0);
    } else if c.session.value.endsAt < now || c.session.value.soc >= 100.0 {
      DeparturePasses(st, n, view, windows, c, now, d, soc0);
    } else if c.nextMeterAt < now {
      MeterPasses(st, n, view, c, now, d, d.idA, soc0);
    }
  }

  lemma {:induction false} AbortPasses(
    st: Station, n: int, view: View, windows: seq<PeakWindow>, c: ConnectorState, now: int, d: Draw, soc0: real)
    requires Registered(st, n, view) && 1 <= c.id <= n && Fair(d) && GoodIds(d) && d.faultHit
    requires Coherent(c) && c.session.Some? && Licensed(c) && OpenConserved(c, soc0)
    requires c.session.value.startedAt <= c.lastMeterAt <= now
    ensures AllPass(FromCharging(st, windows, c, now, d).sent, view)
  {
    AlertPasses(st, n, view, c, now, d, d.idA);
    StopPasses(st, n, view, c, now, windows, d.idB, soc0);
    StatusPasses(st, n, view, StopSession(c, now).(status := Faulted, faultedUntil := now + d.downtime), now,
                 Faulted, d.idC);
  }

  lemma {:induction false} DeparturePasses(
    st: Station, n: int, view: View, windows: seq<PeakWindow>, c: ConnectorState, now: int, d: Draw, soc0: real)
    requires Registered(st, n, view) && 1 <= c.id <= n && Fair(d) && GoodIds(d) && !d.faultHit
    requires Coherent(c) && c.session.Some? && Licensed(c) && OpenConserved(c, soc0)
    requires c.session.value.startedAt <= c.lastMeterAt <= EffectiveStopAt(c.session.value, now)
    requires c.session.value.endsAt < now || c.session.value.soc >= 100.0
    ensures AllPass(FromCharging(st, windows, c, now, d).sent, view)
  {
    var at := EffectiveStopAt(c.session.value, now);
    StopPasses(st, n, view, c, at, windows, d.idA, soc0);
    StatusPasses(st, n, view, StopSession(c, at).(idleUntil := now + d.idleGap), now, Available, d.idB);
  }

  lemma {:induction false} ShapeKeepsLicence(c: ConnectorState, now: int, d: Draw, o: Outcome)
    requires Fair(d) && Coherent(c) && HasShape(c, now, d, o) && Licensed(c)
    ensures Licensed(o.c)
  {
    CatalogIsSound();
    assert CATALOG[d.tariff].id in SeededTariffs();
  }

  lemma {:induction false} NextPasses(st: Station, n: int, view: View, windows: seq<PeakWindow>, t: Trace, tick: Tick)
    requires Registered(st, n, view) && 1 <= t.c.id <= n && Fair(tick.draw) && GoodIds(tick.draw) && t.now < tick.now
    requires Coherent(t.c) && Licensed(t.c) && Metered(t.c, t.now) && OpenConserved(t.c, t.soc0)
    requires AllPass(t.sent, view)
    ensures var t' := NextTrace(st, windows, t, tick);
            AllPass(t'.sent, view) && Licensed(t'.c)
  {
    TickPasses(st, n, view, windows, t.c, t.now, tick.now, tick.draw, t.soc0);
    StepHasShape(st, windows, t.c, tick.now, tick.draw);
    ShapeKeepsLicence(t.c, tick.now, tick.draw, StepConnector(st, windows, t.c, tick.now, tick.draw));
  }

  predicate GoodTicks(ticks: seq<Tick>) {
    forall i | 0 <= i < |ticks| :: GoodIds(ticks[i].draw)
  }

  lemma {:induction false} RunPasses(
    st: Station, n: int, view: View, windows: seq<PeakWindow>, c: ConnectorState, start: int, eventId: string,
    ticks: seq<Tick>)
    requires Registered(st, n, view) && 1 <= c.id <= n && ValidEventId(eventId)
    requires Idle(c) && Proper(start, ticks) && GoodTicks(ticks)
    ensures var t := Run(st, windows, c, start, eventId, ticks);
            AllPass(t.sent, view) && Licensed(t.c)
  {
    if ticks == [] {
      StatusPasses(st, n, view, c, start, Available, eventId);
    } else {
      var k := |ticks| - 1;
      RunPasses(st, n, view, windows, c, start, eventId, ticks[..k]);
      var t := BeforeLastTick(st, windows, c, start, eventId, ticks);
      assert GoodIds(ticks[k].draw);
      NextPasses(st, n, view, windows, t, ticks[k]);
    }
  }

  /** Connector `k` of a site as the roster creates it. */
  function NewConnector(site: Site, k: nat, idleUntil: int): ConnectorState
    requires k < |site.ratings|
  {
    ConnectorState(k + 1, site.ratings[k].0, site.ratings[k].1, Available, None, 0, 0, idleUntil, 0)
  }

  /**
    Whatever the roster, the draws and the ticks: each event a connector ever emits, and each
    heartbeat of its station, is accepted by a processor whose registry was seeded from that roster.
   */
  lemma {:induction false} SimulatorIsNeverRejected(
    draws: seq<SiteDraw>, sites: seq<Site>, i: nat, k: nat,
    windows: seq<PeakWindow>, idleUntil: int, start: int, eventId: string, ticks: seq<Tick>)
    requires BuiltFrom(sites, draws) && GoodSites(draws)
    requires i < |sites| && k < |sites[i].ratings|
    requires ValidEventId(eventId) && Proper(start, ticks) && GoodTicks(ticks)
    ensures AllPass(Run(sites[i].st, windows, NewConnector(sites[i], k, idleUntil), start, eventId, ticks).sent,
        Seeded(sites))
    ensures forall now, id | ValidEventId(id) :: Passes(HeartbeatEvent(sites[i].st, now, id), Seeded(sites))
  {
    SitesAreRegistered(sites, draws, i);
    assert sites[i] == SiteFor(draws[i], NumberAt(draws, i));
    RunPasses(sites[i].st, |sites[i].ratings|, Seeded(sites), windows, NewConnector(sites[i], k, idleUntil), start,
        eventId, ticks);
    forall now, id | ValidEventId(id)
      ensures Passes(HeartbeatEvent(sites[i].st, now, id), Seeded(sites))
    {
      HeartbeatPasses(sites[i].st, |sites[i].ratings|, Seeded(sites), now, id);
    }
  }
}
