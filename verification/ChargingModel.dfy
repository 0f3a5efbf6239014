/**
  Sessions, connectors and the events they emit (simulator/model.go). Times are nanoseconds,
  an event carries its instant cut to milliseconds, floats are reals, and every random draw is
  a parameter.
 */
module ChargingModel {
  import opened Events

  const NS_PER_SECOND := 1_000_000_000
  const NS_PER_HOUR := 3_600_000_000_000

  function Hours(d: int): real {
    d as real / 3_600_000_000_000.0
  }

  /** The timestamp text keeps milliseconds. */
  function Millis(t: int): int {
    t / 1_000_000
  }

  function HourOfDay(t: int): int {
    (t / NS_PER_HOUR) % 24
  }

  /** math.Round: half away from zero. */
  function Round(x: real): int {
    if x < 0.0 then -((0.5 - x).Floor) else (x + 0.5).Floor
  }

  function Round1(x: real): real { Round(x * 10.0) as real / 10.0 }
  function Round2(x: real): real { Round(x * 100.0) as real / 100.0 }
  function Round3(x: real): real { Round(x * 1000.0) as real / 1000.0 }

  function Min(a: real, b: real): real {
    if a < b then a else b
  }

  datatype VehicleModel = VehicleModel(brand: string, model: string, batteryKwh: real, maxAcceptKw: real)

  const FLEET: seq<VehicleModel> := [
    VehicleModel("Tesla", "Model 3", 60.0, 250.0),
    VehicleModel("Tesla", "Model Y", 75.0, 250.0),
    VehicleModel("Volvo", "EX30", 64.0, 153.0),
    VehicleModel("Volvo", "XC40 Recharge", 78.0, 150.0),
    VehicleModel("Volkswagen", "ID.4", 77.0, 135.0),
    VehicleModel("Hyundai", "IONIQ 5", 77.0, 233.0),
    VehicleModel("Kia", "EV6", 77.0, 233.0),
    VehicleModel("Renault", "Megane E-Tech", 60.0, 130.0),
    VehicleModel("BMW", "i4", 80.0, 205.0),
    VehicleModel("Mercedes-Benz", "EQB", 66.0, 100.0),
    VehicleModel("Togg", "T10X", 88.0, 180.0)]

  datatype Tariff = Tariff(id: string, base: real, peakMult: real)

  const CATALOG: seq<Tariff> := [
    Tariff("standard-v1", 0.39, 1.00),
    Tariff("peak-rate-v2", 0.49, 1.35),
    Tariff("off-peak-v1", 0.29, 0.80),
    Tariff("fleet-v1", 0.34, 1.00)]

  /** tariffByID; a missing id yields the zero tariff. */
  function FindTariff(catalog: seq<Tariff>, id: string): Tariff {
    if catalog == [] then Tariff("", 0.0, 0.0)
    else if catalog[|catalog| - 1].id == id then catalog[|catalog| - 1]
    else FindTariff(catalog[..|catalog| - 1], id)
  }

  const FAULT_CODES: seq<Fault> := [
    Fault("GroundFailure", "EVSE"),
    Fault("OverCurrentFailure", "Connector"),
    Fault("OverVoltage", "PowerModule"),
    Fault("HighTemperature", "CoolingSystem"),
    Fault("ConnectorLockFailure", "Connector"),
    Fault("CommunicationError", "Controller")]

  datatype PeakWindow = PeakWindow(start: int, end: int)

  predicate InPeakWindow(hour: int, windows: seq<PeakWindow>) {
    exists i :: 0 <= i < |windows| && windows[i].start <= hour < windows[i].end
  }

  datatype Station = Station(id: string, operatorId: string, city: string, country: string, lat: real, lon: real)

  datatype Session = Session(
    id: string, vehicle: Vehicle, batteryKwh: real, tariffId: string,
    startedAt: int, endsAt: int, energyKwh: real, soc: real, targetKw: real)

  /** The value of a connector object between two calls. */
  datatype ConnectorState = ConnectorState(
    id: int, rating: real, dc: bool,
    status: Status, session: Option<Session>,
    nextMeterAt: int, lastMeterAt: int, idleUntil: int, faultedUntil: int)

  /** Everything one tick may draw for one connector. */
  datatype Draw = Draw(
    faultHit: bool, faultCode: nat, downtime: int, idleGap: int,
    vehicle: nat, evId: string, sessionId: string, duration: int, soc0: real, tariff: nat,
    meterGap: int, fallbackGap: int,
    idA: string, idB: string, idC: string)

  /** The ranges of the draws: 5-30 minutes down, at least 15 seconds idle, 10-50 % charge, ... */
  predicate Fair(d: Draw) {
    && d.faultCode < |FAULT_CODES|
    && 300 * NS_PER_SECOND <= d.downtime
    && 15 * NS_PER_SECOND <= d.idleGap
    && d.vehicle < |FLEET|
    && d.sessionId != ""
    && 0 <= d.duration
    && 10.0 <= d.soc0 <= 50.0
    && d.tariff < |CATALOG|
    && NS_PER_SECOND <= d.meterGap
    && NS_PER_SECOND <= d.fallbackGap
  }

  function BaseEvent(st: Station, connectorId: int, eventId: string, eventType: EventType, now: int): Event {
    Event(eventId, eventType, st.id, connectorId, "", Some(Millis(now)), st.operatorId,
          Location(st.lat, st.lon, st.city, st.country), None, None, "", 0.0, None, NoStatus, false)
  }

  function NominalVoltage(dc: bool): real {
    if dc then 400.0 else 230.0
  }

  /** Full target up to 80 % charge, then a ramp down to 8 % of it. */
  function ChargingPower(s: Session): real {
    if s.soc < 80.0 then s.targetKw
    else s.targetKw * (0.08 + 0.92 * ((100.0 - s.soc) / 20.0))
  }

  /** Energy and charge after `added` kWh more. */
  function Deliver(s: Session, added: real): Session
    requires s.batteryKwh != 0.0
  {
    s.(energyKwh := s.energyKwh + added, soc := Min(100.0, s.soc + (added / s.batteryKwh) * 100.0))
  }

  /** Energy and charge after `hours` at the present power. */
  function Advance(s: Session, hours: real): Session
    requires s.batteryKwh != 0.0
  {
    Deliver(s, ChargingPower(s) * hours)
  }

  function NewSession(c: ConnectorState, now: int, d: Draw): Session
    requires Fair(d)
  {
    var v := FLEET[d.vehicle];
    Session(d.sessionId, Vehicle(v.brand, v.model, d.evId), v.batteryKwh, CATALOG[d.tariff].id,
            now, now + d.duration, 0.0, d.soc0, Min(c.rating, v.maxAcceptKw))
  }

  function StartSession(c: ConnectorState, now: int, d: Draw): ConnectorState
    requires Fair(d)
  {
    c.(session := Some(NewSession(c, now, d)), status := Charging, lastMeterAt := now, nextMeterAt := now + d.meterGap)
  }

  function StartEvent(st: Station, c: ConnectorState, now: int, d: Draw, eventId: string): Event
    requires Fair(d)
  {
    var s := NewSession(c, now, d);
    BaseEvent(st, c.id, eventId, SessionStart, now).(
      sessionId := s.id, tariffId := s.tariffId, vehicle := Some(s.vehicle),
      meter := Some(Meter(0.0, 0.0, NominalVoltage(c.dc), 0.0, s.soc.Floor)))
  }

  function MeterHours(c: ConnectorState, now: int, d: Draw): real {
    if now <= c.lastMeterAt then Hours(d.fallbackGap) else Hours(now - c.lastMeterAt)
  }

  function MeterTick(c: ConnectorState, now: int, d: Draw): ConnectorState
    requires c.session.Some? && c.session.value.batteryKwh != 0.0
  {
    c.(session := Some(Advance(c.session.value, MeterHours(c, now, d))),
       lastMeterAt := now, nextMeterAt := now + d.meterGap)
  }

  function MeterEvent(st: Station, c: ConnectorState, now: int, d: Draw, eventId: string): Event
    requires c.session.Some? && c.session.value.batteryKwh != 0.0
  {
    var power := ChargingPower(c.session.value);
    var s := MeterTick(c, now, d).session.value;
    BaseEvent(st, c.id, eventId, MeterUpdate, now).(
      sessionId := s.id, tariffId := s.tariffId,
      meter := Some(Meter(Round1(power), Round3(s.energyKwh), NominalVoltage(c.dc),
                          Round1(power * 1000.0 / NominalVoltage(c.dc)), s.soc.Floor)))
  }

  function EffectiveStopAt(s: Session, now: int): int {
    if s.soc < 100.0 && s.endsAt < now then s.endsAt else now
  }

  /** The session with its last interval added; a full battery gets none. */
  function ClosedSession(c: ConnectorState, at: int): Session
    requires c.session.Some? && c.session.value.batteryKwh != 0.0
  {
    var s := c.session.value;
    if s.soc < 100.0 && c.lastMeterAt < at then Advance(s, Hours(at - c.lastMeterAt)) else s
  }

  function StopSession(c: ConnectorState, at: int): ConnectorState
    requires c.session.Some? && c.session.value.batteryKwh != 0.0
  {
    c.(session := None, status := Available,
       lastMeterAt := if c.session.value.soc < 100.0 && c.lastMeterAt < at then at else c.lastMeterAt)
  }

  function Rate(t: Tariff, at: int, windows: seq<PeakWindow>): real {
    if InPeakWindow(HourOfDay(at), windows) then t.base * t.peakMult else t.base
  }

  function Cost(energyKwh: real, rate: real): real {
    energyKwh * rate
  }

  function StopEvent(st: Station, c: ConnectorState, at: int, windows: seq<PeakWindow>, eventId: string): Event
    requires c.session.Some? && c.session.value.batteryKwh != 0.0
  {
    var s := ClosedSession(c, at);
    var t := FindTariff(CATALOG, s.tariffId);
    BaseEvent(st, c.id, eventId, SessionStop, at).(
      sessionId := s.id, tariffId := s.tariffId,
      costEur := Round2(Cost(s.energyKwh, Rate(t, at, windows))),
      isPeakPriced := InPeakWindow(HourOfDay(at), windows) && t.peakMult > 1.0,
      meter := Some(Meter(0.0, Round3(s.energyKwh), NominalVoltage(c.dc), 0.0, s.soc.Floor)))
  }

  function StatusEvent(st: Station, c: ConnectorState, now: int, status: Status, eventId: string): Event {
    BaseEvent(st, c.id, eventId, StatusChange, now).(
      status := status, sessionId := if c.session.Some? then c.session.value.id else "")
  }

  function AlertEvent(st: Station, c: ConnectorState, now: int, d: Draw, eventId: string): Event
    requires Fair(d)
  {
    BaseEvent(st, c.id, eventId, FaultAlert, now).(fault := Some(FAULT_CODES[d.faultCode]))
  }

  function HeartbeatEvent(st: Station, now: int, eventId: string): Event {
    BaseEvent(st, 0, eventId, Heartbeat, now)
  }

  // ---------------------------------------------------------------------------------------
  // What the arithmetic and the events mean
  // ---------------------------------------------------------------------------------------

  /** `k` is the integer nearest to `x`; halves go away from zero. */
  predicate IsNearest(k: int, x: real) {
    if 0.0 <= x then k as real - 0.5 <= x < k as real + 0.5 else k as real - 0.5 < x <= k as real + 0.5
  }

  lemma {:induction false} RoundIsNearest(x: real)
    ensures IsNearest(Round(x), x)
    ensures forall k | IsNearest(k, x) :: k == Round(x)
  {
  }

  /** Constant up to 80 % charge, then linear down to 8 % of the target at 100 %. */
  predicate Tapers(p: real, soc: real, targetKw: real) {
    && (soc < 80.0 ==> p == targetKw)
    && (80.0 <= soc ==> (p - 0.08 * targetKw) * 20.0 == (targetKw - 0.08 * targetKw) * (100.0 - soc))
  }

  lemma {:induction false} PowerTapers(s: Session)
    ensures Tapers(ChargingPower(s), s.soc, s.targetKw)
  {
    if 80.0 <= s.soc {
      var q := (100.0 - s.soc) / 20.0;
      assert s.targetKw * (0.08 + 0.92 * q) == 0.08 * s.targetKw + (0.92 * s.targetKw) * q;
      assert (0.92 * s.targetKw) * q * 20.0 == (0.92 * s.targetKw) * (q * 20.0);
    }
  }

  /** Some configured window contains the hour of the day of `at`. */
  predicate InWindow(at: int, windows: seq<PeakWindow>) {
    exists i :: 0 <= i < |windows| && windows[i].start <= (at / 3_600_000_000_000) % 24 < windows[i].end
  }

  /** Kind, place and time of an event. */
  predicate Bears(e: Event, st: Station, connectorId: int, kind: EventType, at: int, eventId: string) {
    && e.eventId == eventId && e.eventType == kind && e.timestamp == Some(at / 1_000_000)
    && e.stationId == st.id && e.connectorId == connectorId && e.operatorId == st.operatorId
    && e.location == Location(st.lat, st.lon, st.city, st.country)
  }

  predicate SaysStatus(e: Event, st: Station, c: ConnectorState, at: int, status: Status, eventId: string) {
    && Bears(e, st, c.id, StatusChange, at, eventId) && e.status == status && e.meter.None?
    && e.sessionId == match c.session { case None => "" case Some(s) => s.id }
  }

  predicate SaysAlert(e: Event, st: Station, c: ConnectorState, at: int, d: Draw, eventId: string)
    requires Fair(d)
  {
    && Bears(e, st, c.id, FaultAlert, at, eventId) && e.fault == Some(FAULT_CODES[d.faultCode])
    && e.meter.None? && e.sessionId == ""
  }

  /** The drawn car arrives with the drawn charge and will stay for the drawn time. */
  predicate Opened(s: Session, c: ConnectorState, now: int, d: Draw)
    requires Fair(d)
  {
    var v := FLEET[d.vehicle];
    && s.id == d.sessionId && s.tariffId == CATALOG[d.tariff].id && s.vehicle == Vehicle(v.brand, v.model, d.evId)
    && s.startedAt == now && s.endsAt == now + d.duration
    && s.energyKwh == 0.0 && s.soc == d.soc0 && s.batteryKwh == v.batteryKwh
    && s.targetKw <= c.rating && s.targetKw <= v.maxAcceptKw && (s.targetKw == c.rating || s.targetKw == v.maxAcceptKw)
  }

  predicate SaysStart(e: Event, st: Station, c: ConnectorState, s: Session, at: int, eventId: string) {
    && Bears(e, st, c.id, SessionStart, at, eventId)
    && e.sessionId == s.id && e.tariffId == s.tariffId && e.vehicle == Some(s.vehicle)
    && e.meter == Some(Meter(0.0, 0.0, if c.dc then 400.0 else 230.0, 0.0, s.soc.Floor))
  }

  /** `after` is `before` with the energy of `ns` nanoseconds at the present power, and its charge. */
  predicate Charged(before: Session, after: Session, ns: int)
    requires before.batteryKwh != 0.0
  {
    var added := ChargingPower(before) * (ns as real / 3_600_000_000_000.0);
    var soc := before.soc + (added / before.batteryKwh) * 100.0;
    after == before.(energyKwh := before.energyKwh + added, soc := if soc < 100.0 then soc else 100.0)
  }

  predicate SaysReading(
    e: Event, st: Station, c: ConnectorState, power: real, after: Session, at: int, eventId: string)
  {
    var volt := if c.dc then 400.0 else 230.0;
    && Bears(e, st, c.id, MeterUpdate, at, eventId) && e.sessionId == after.id && e.tariffId == after.tariffId
    && e.meter == Some(Meter(Round1(power), Round3(after.energyKwh), volt, Round1(power * 1000.0 / volt),
        after.soc.Floor))
  }

  /** The peak multiplier applies inside the windows; only a real premium is flagged. */
  predicate Bills(e: Event, t: Tariff, energyKwh: real, at: int, windows: seq<PeakWindow>) {
    && e.costEur == Round2(if InWindow(at, windows) then energyKwh * (t.base * t.peakMult) else energyKwh * t.base)
    && (e.isPeakPriced <==> InWindow(at, windows) && 1.0 < t.peakMult)
  }

  /** The stop of a session that ends as `after`. */
  predicate SaysStop(
    e: Event, st: Station, c: ConnectorState, after: Session, at: int, windows: seq<PeakWindow>, eventId: string)
  {
    && Bears(e, st, c.id, SessionStop, at, eventId) && e.sessionId == after.id && e.tariffId == after.tariffId
    && e.meter == Some(Meter(0.0, Round3(after.energyKwh), if c.dc then 400.0 else 230.0, 0.0, after.soc.Floor))
    && forall k | 0 <= k < |CATALOG| && CATALOG[k].id == after.tariffId ::
        Bills(e, CATALOG[k], after.energyKwh, at, windows)
  }

  /** Below a full charge the tail since the last reading is added; a full battery gets none. */
  predicate Ended(c: ConnectorState, after: Session, at: int)
    requires c.session.Some? && c.session.value.batteryKwh != 0.0
  {
    if c.session.value.soc < 100.0 && c.lastMeterAt < at
    then Charged(c.session.value, after, at - c.lastMeterAt)
    else after == c.session.value
  }

  lemma {:induction false} CatalogIsKeyed(k: nat)
    requires k < |CATALOG|
    ensures FindTariff(CATALOG, CATALOG[k].id) == CATALOG[k]
  {
    assert |CATALOG| == 4;
    var c3, c2, c1 := CATALOG[..3], CATALOG[..3][..2], CATALOG[..3][..2][..1];
    assert FindTariff(CATALOG, CATALOG[k].id) == if k == 3 then CATALOG[3] else FindTariff(c3, CATALOG[k].id);
    assert k < 3 ==> FindTariff(c3, CATALOG[k].id) == if k == 2 then CATALOG[2] else FindTariff(c2, CATALOG[k].id);
    assert k < 2 ==> FindTariff(c2, CATALOG[k].id) == if k == 1 then CATALOG[1] else FindTariff(c1, CATALOG[k].id);
  }

  lemma {:induction false} AdvanceCharges(s: Session, ns: int)
    requires s.batteryKwh != 0.0
    ensures Charged(s, Advance(s, Hours(ns)), ns)
  {
  }

  lemma {:induction false} HeartbeatSays(st: Station, now: int, eventId: string)
    ensures Bears(HeartbeatEvent(st, now, eventId), st, 0, Heartbeat, now, eventId)
  {
  }

  lemma {:induction false} StartSays(st: Station, c: ConnectorState, now: int, d: Draw, eventId: string)
    requires Fair(d)
    ensures Opened(NewSession(c, now, d), c, now, d)
    ensures SaysStart(StartEvent(st, c, now, d, eventId), st, c, NewSession(c, now, d), now, eventId)
  {
  }

  lemma {:induction false} MeterSays(st: Station, c: ConnectorState, now: int, d: Draw, eventId: string)
    requires c.session.Some? && c.session.value.batteryKwh != 0.0 && c.lastMeterAt < now
    ensures var s, after := c.session.value, MeterTick(c, now, d).session.value;
            && Charged(s, after, now - c.lastMeterAt)
            && SaysReading(MeterEvent(st, c, now, d, eventId), st, c, ChargingPower(s), after, now, eventId)
  {
    AdvanceCharges(c.session.value, now - c.lastMeterAt);
  }

  lemma {:induction false} StopBills(
    st: Station, c: ConnectorState, at: int, windows: seq<PeakWindow>, eventId: string, k: nat)
    requires c.session.Some? && c.session.value.batteryKwh != 0.0
    requires k < |CATALOG| && CATALOG[k].id == ClosedSession(c, at).tariffId
    ensures Bills(StopEvent(st, c, at, windows, eventId), CATALOG[k], ClosedSession(c, at).energyKwh, at, windows)
  {
    CatalogIsKeyed(k);
    BillsAtRate(StopEvent(st, c, at, windows, eventId), CATALOG[k], ClosedSession(c, at).energyKwh, at, windows);
  }

  lemma {:induction false} BillsAtRate(e: Event, t: Tariff, energyKwh: real, at: int, windows: seq<PeakWindow>)
    requires e.costEur == Round2(Cost(energyKwh, Rate(t, at, windows)))
    requires e.isPeakPriced == (InPeakWindow(HourOfDay(at), windows) && t.peakMult > 1.0)
    ensures Bills(e, t, energyKwh, at, windows)
  {
    assert InPeakWindow(HourOfDay(at), windows) <==> InWindow(at, windows);
    if InWindow(at, windows) {
      assert Cost(energyKwh, Rate(t, at, windows)) == energyKwh * (t.base * t.peakMult);
    } else {
      assert Cost(energyKwh, Rate(t, at, windows)) == energyKwh * t.base;
    }
  }

  lemma {:induction false} StopSays(
    st: Station, c: ConnectorState, at: int, windows: seq<PeakWindow>, eventId: string)
    requires c.session.Some? && c.session.value.batteryKwh != 0.0
    ensures Ended(c, ClosedSession(c, at), at)
    ensures SaysStop(StopEvent(st, c, at, windows, eventId), st, c, ClosedSession(c, at), at, windows, eventId)
  {
    AdvanceCharges(c.session.value, at - c.lastMeterAt);
    forall k | 0 <= k < |CATALOG| && CATALOG[k].id == ClosedSession(c, at).tariffId
      ensures Bills(StopEvent(st, c, at, windows, eventId), CATALOG[k], ClosedSession(c, at).energyKwh, at, windows)
    {
      StopBills(st, c, at, windows, eventId, k);
    }
  }

  // ---------------------------------------------------------------------------------------
  // The connector object
  // ---------------------------------------------------------------------------------------

  class Connector {
    const id: int
    const rating: real
    const dc: bool
    var status: Status
    var session: Option<Session>
    var nextMeterAt: int
    var lastMeterAt: int
    var idleUntil: int
    var faultedUntil: int

    constructor (id: int, rating: real, dc: bool, idleUntil: int)
      ensures State() == ConnectorState(id, rating, dc, Available, None, 0, 0, idleUntil, 0)
    {
      this.id, this.rating, this.dc := id, rating, dc;
      status, session := Available, None;
      nextMeterAt, lastMeterAt, this.idleUntil, faultedUntil := 0, 0, idleUntil, 0;
    }

    function State(): ConnectorState
      reads this
    {
      ConnectorState(id, rating, dc, status, session, nextMeterAt, lastMeterAt, idleUntil, faultedUntil)
    }

    method Start(st: Station, now: int, d: Draw, eventId: string) returns (e: Event)
      requires Fair(d)
      modifies this
      ensures State() == StartSession(old(State()), now, d)
      ensures e == StartEvent(st, old(State()), now, d, eventId)
      ensures status == Charging && session.Some? && Opened(session.value, old(State()), now, d)
      ensures lastMeterAt == now && nextMeterAt == now + d.meterGap
      ensures SaysStart(e, st, old(State()), session.value, now, eventId)
    {
      StartSays(st, State(), now, d, eventId);
      var v := FLEET[d.vehicle];
      var s := Session(d.sessionId, Vehicle(v.brand, v.model, d.evId), v.batteryKwh, CATALOG[d.tariff].id,
                       now, now + d.duration, 0.0, d.soc0, Min(rating, v.maxAcceptKw));
      session := Some(s);
      status := Charging;
      lastMeterAt := now;
      nextMeterAt := now + d.meterGap;
      e := BaseEvent(st, id, eventId, SessionStart, now);
      e := e.(sessionId := s.id, tariffId := s.tariffId, vehicle := Some(s.vehicle));
      e := e.(meter := Some(Meter(0.0, 0.0, NominalVoltage(dc), 0.0, s.soc.Floor)));
    }

    method Tick(st: Station, now: int, d: Draw, eventId: string) returns (e: Event)
      requires session.Some? && session.value.batteryKwh != 0.0
      modifies this
      ensures State() == MeterTick(old(State()), now, d)
      ensures e == MeterEvent(st, old(State()), now, d, eventId)
      ensures lastMeterAt == now && nextMeterAt == now + d.meterGap && status == old(status) && session.Some?
      ensures old(lastMeterAt) < now ==>
                && Charged(old(session.value), session.value, now - old(lastMeterAt))
                && SaysReading(e, st, old(State()), ChargingPower(old(session.value)), session.value, now, eventId)
    {
      if lastMeterAt < now {
        MeterSays(st, State(), now, d, eventId);
      }
      var s := session.value;
      var hours := Hours(now - lastMeterAt);
      if now <= lastMeterAt {
        hours := Hours(d.fallbackGap);
      }
      var power := ChargingPower(s);
      s := Advance(s, hours);
      session := Some(s);
      var volt := NominalVoltage(dc);
      var cur := power * 1000.0 / volt;
      lastMeterAt := now;
      nextMeterAt := now + d.meterGap;
      e := BaseEvent(st, id, eventId, MeterUpdate, now).(sessionId := s.id, tariffId := s.tariffId);
      e := e.(meter := Some(Meter(Round1(power), Round3(s.energyKwh), volt, Round1(cur), s.soc.Floor)));
    }

    method Stop(st: Station, at: int, windows: seq<PeakWindow>, eventId: string) returns (e: Event,
        ghost after: Session)
      requires session.Some? && session.value.batteryKwh != 0.0
      modifies this
      ensures State() == StopSession(old(State()), at)
      ensures e == StopEvent(st, old(State()), at, windows, eventId)
      ensures session == None && status == Available
      ensures Ended(old(State()), after, at) && SaysStop(e, st, old(State()), after, at, windows, eventId)
    {
      StopSays(st, State(), at, windows, eventId);
      after := ClosedSession(State(), at);
      var s := session.value;
      if s.soc < 100.0 && lastMeterAt < at {
        s := Advance(s, Hours(at - lastMeterAt));
        lastMeterAt := at;
      }
      assert s == ClosedSession(old(State()), at);
      var t := FindTariff(CATALOG, s.tariffId);
      var rate, peakPriced := t.base, false;
      if InPeakWindow(HourOfDay(at), windows) {
        rate := t.base * t.peakMult;
        peakPriced := t.peakMult > 1.0;
      }
      assert rate == Rate(t, at, windows);
      var cost := Cost(s.energyKwh, rate);
      e := BaseEvent(st, id, eventId, SessionStop, at).(sessionId := s.id, tariffId := s.tariffId);
      e := e.(costEur := Round2(cost), isPeakPriced := peakPriced);
      e := e.(meter := Some(Meter(0.0, Round3(s.energyKwh), NominalVoltage(dc), 0.0, s.soc.Floor)));
      session := None;
      status := Available;
    }
  }
}
