/** Schema and referential checks on one event (processor/validate.go). */
module Validation {
  import opened Events

  datatype StationMeta = StationMeta(
    numConnectors: int, operatorId: string, city: string, country: string, lat: real, lon: real)

  /**
    What one call of Validate reads from the registry. Stations and tariffs are loaded from
    the current snapshot separately, so a concurrent refresh may pair two different rosters.
   */
  datatype View = View(stations: map<string, StationMeta>, tariffs: set<string>)

  datatype Rule =
    | InvalidJson | MissingEventId | BadEventId | UnknownEventType | UnknownStation | BadTimestamp
    | MissingOperator | MissingLocation | BadGeo | OperatorMismatch | CityMismatch | CountryMismatch
    | GeoMismatch | BadConnector | ConnectorOutOfRange | UnknownTariff | MissingSession
    | MissingVehicle | MissingTariff | MissingMeter | BadCost | BadStatus | MissingFault
    | SocOutOfRange | BadPower | BadEnergy | BadVoltage | BadCurrent

  datatype Verdict = Accepted(ts: int) | Rejected(rule: Rule)

  predicate IsHexDigit(c: char) {
    '0' <= c <= '9' || 'a' <= c <= 'f' || 'A' <= c <= 'F'
  }

  predicate IsHyphenPosition(i: int) {
    i == 8 || i == 13 || i == 18 || i == 23
  }

  /** The textual UUID shape of section 4 of RFC 9562: 8-4-4-4-12 hexadecimal digits. */
  ghost predicate IsUuidText(s: string) {
    exists a, b, c, d, e ::
      && |a| == 8 && |b| == 4 && |c| == 4 && |d| == 4 && |e| == 12
      && s == a + "-" + b + "-" + c + "-" + d + "-" + e
      && (forall ch | ch in a + b + c + d + e :: IsHexDigit(ch))
  }

  predicate ValidEventId(s: string) {
    |s| == 36 && forall i | 0 <= i < 36 :: if IsHyphenPosition(i) then s[i] == '-' else IsHexDigit(s[i])
  }

  /** The index loop of isValidEventID. */
  method IsValidEventId(s: string) returns (ok: bool)
    ensures ok <==> IsUuidText(s)
  {
    ValidIdIsUuidText(s);
    if |s| != 36 {
      return false;
    }
    var i := 0;
    while i < |s|
      invariant 0 <= i <= 36
      invariant forall k | 0 <= k < i :: if IsHyphenPosition(k) then s[k] == '-' else IsHexDigit(s[k])
    {
      if IsHyphenPosition(i) {
        if s[i] != '-' {
          return false;
        }
      } else if !IsHexDigit(s[i]) {
        return false;
      }
      i := i + 1;
    }
    return true;
  }

  lemma {:induction false} ValidIdIsUuidText(s: string)
    ensures ValidEventId(s) <==> IsUuidText(s)
  {
    if ValidEventId(s) {
      var a, b, c, d, e := s[..8], s[9..13], s[14..18], s[19..23], s[24..];
      assert s == a + "-" + b + "-" + c + "-" + d + "-" + e;
    }
    UuidTextIsValidId(s);
  }

  lemma {:induction false} UuidTextIsValidId(s: string)
    ensures IsUuidText(s) ==> ValidEventId(s)
  {
    if a, b, c, d, e :|
      && |a| == 8 && |b| == 4 && |c| == 4 && |d| == 4 && |e| == 12
      && s == a + "-" + b + "-" + c + "-" + d + "-" + e
      && (forall ch | ch in a + b + c + d + e :: IsHexDigit(ch))
    {
      forall ch | ch in a || ch in b || ch in c || ch in d || ch in e
        ensures IsHexDigit(ch)
      {
        assert ch in a + b + c + d + e;
      }
      GroupsAt(s, a, b, c, d, e);
    }
  }

  lemma {:induction false} GroupsAt(s: string, a: string, b: string, c: string, d: string, e: string)
    requires |a| == 8 && |b| == 4 && |c| == 4 && |d| == 4 && |e| == 12
    requires s == a + "-" + b + "-" + c + "-" + d + "-" + e
    ensures |s| == 36 && s[8] == s[13] == s[18] == s[23] == '-'
    ensures s[..8] == a && s[9..13] == b && s[14..18] == c && s[19..23] == d && s[24..] == e
  {
  }

  function Abs(x: real): real {
    if x < 0.0 then -x else x
  }

  function ValidateMeter(m: Meter): Option<Rule> {
    if m.socPercent < 0 || m.socPercent > 100 then Some(SocOutOfRange)
    else if m.powerKw < 0.0 || m.powerKw > 1000.0 then Some(BadPower)
    else if m.energyKwh < 0.0 then Some(BadEnergy)
    else if m.voltageV < 0.0 then Some(BadVoltage)
    else if m.currentA < 0.0 then Some(BadCurrent)
    else None
  }

  function CheckIdentity(e: Event, meta: StationMeta): Option<Rule> {
    if e.operatorId == "" then Some(MissingOperator)
    else if e.location.city == "" || e.location.country == "" then Some(MissingLocation)
    else if e.location.lat < -90.0 || e.location.lat > 90.0 || e.location.lon < -180.0 || e.location.lon > 180.0
    then Some(BadGeo)
    else if e.operatorId != meta.operatorId then Some(OperatorMismatch)
    else if e.location.city != meta.city then Some(CityMismatch)
    else if e.location.country != meta.country then Some(CountryMismatch)
    else if Abs(e.location.lat - meta.lat) > 0.0001 || Abs(e.location.lon - meta.lon) > 0.0001
    then Some(GeoMismatch)
    else if e.eventType.Heartbeat? then (if e.connectorId != 0 then Some(BadConnector) else None)
    else if e.connectorId < 1 || e.connectorId > meta.numConnectors then Some(ConnectorOutOfRange)
    else None
  }

  function CheckByType(e: Event): Option<Rule> {
    match e.eventType
    case SessionStart =>
      if e.sessionId == "" then Some(MissingSession)
      else if e.vehicle.None? || e.vehicle.value.brand == "" then Some(MissingVehicle)
      else if e.tariffId == "" then Some(MissingTariff)
      else if e.meter.None? then Some(MissingMeter)
      else None
    case MeterUpdate =>
      if e.sessionId == "" then Some(MissingSession)
      else if e.tariffId == "" then Some(MissingTariff)
      else if e.meter.None? then Some(MissingMeter)
      else None
    case SessionStop =>
      if e.sessionId == "" then Some(MissingSession)
      else if e.tariffId == "" then Some(MissingTariff)
      else if e.meter.None? then Some(MissingMeter)
      else if e.costEur < 0.0 then Some(BadCost)
      else None
    case StatusChange =>
      if e.status.Available? || e.status.Charging? || e.status.Faulted? then None else Some(BadStatus)
    case FaultAlert =>
      if e.fault.None? || e.fault.value.errorCode == "" then Some(MissingFault) else None
    case _ => None
  }

  /** The checks before the station's identity. */
  function CheckHead(e: Event, view: View): Option<Rule> {
    if e.eventId == "" then Some(MissingEventId)
    else if !ValidEventId(e.eventId) then Some(BadEventId)
    else if e.eventType.OtherType? then Some(UnknownEventType)
    else if e.stationId !in view.stations then Some(UnknownStation)
    else if e.timestamp.None? then Some(BadTimestamp)
    else None
  }

  function CheckTariff(e: Event, view: View): Option<Rule> {
    if e.tariffId != "" && e.tariffId !in view.tariffs then Some(UnknownTariff) else None
  }

  /** First failure wins; on success the parsed event time is returned. */
  function Validate(e: Event, view: View): Verdict {
    var head := CheckHead(e, view);
    if head.Some? then Rejected(head.value)
    else
      var identity := CheckIdentity(e, view.stations[e.stationId]);
      if identity.Some? then Rejected(identity.value)
      else
        var tariff := CheckTariff(e, view);
        if tariff.Some? then Rejected(tariff.value)
        else
          var shape := CheckByType(e);
          if shape.Some? then Rejected(shape.value)
          else
            var reading := if e.meter.Some? then ValidateMeter(e.meter.value) else None;
            if reading.Some? then Rejected(reading.value) else Accepted(e.timestamp.value)
  }

  // ---------------------------------------------------------------------------------------
  // What a verdict means
  // ---------------------------------------------------------------------------------------

  predicate IsSessionEvent(e: Event) {
    e.eventType.SessionStart? || e.eventType.MeterUpdate? || e.eventType.SessionStop?
  }

  /** The event is at odds with the rule, whatever the others say. */
  ghost predicate Violates(e: Event, view: View, rule: Rule) {
    var known := e.stationId in view.stations;
    match rule
    case InvalidJson => false
    case MissingEventId => e.eventId == ""
    case BadEventId => !IsUuidText(e.eventId)
    case UnknownEventType => e.eventType.OtherType?
    case UnknownStation => !known
    case BadTimestamp => e.timestamp.None?
    case MissingOperator => e.operatorId == ""
    case MissingLocation => e.location.city == "" || e.location.country == ""
    case BadGeo => !(-90.0 <= e.location.lat <= 90.0 && -180.0 <= e.location.lon <= 180.0)
    case OperatorMismatch => known && e.operatorId != view.stations[e.stationId].operatorId
    case CityMismatch => known && e.location.city != view.stations[e.stationId].city
    case CountryMismatch => known && e.location.country != view.stations[e.stationId].country
    case GeoMismatch =>
      && known
      && var meta := view.stations[e.stationId];
      !(&& meta.lat - 0.0001 <= e.location.lat <= meta.lat + 0.0001
        && meta.lon - 0.0001 <= e.location.lon <= meta.lon + 0.0001)
    case BadConnector => e.eventType.Heartbeat? && e.connectorId != 0
    case ConnectorOutOfRange =>
      known && !e.eventType.Heartbeat? && !(1 <= e.connectorId <= view.stations[e.stationId].numConnectors)
    case UnknownTariff => e.tariffId != "" && e.tariffId !in view.tariffs
    case MissingSession => IsSessionEvent(e) && e.sessionId == ""
    case MissingVehicle => e.eventType.SessionStart? && (e.vehicle.None? || e.vehicle.value.brand == "")
    case MissingTariff => IsSessionEvent(e) && e.tariffId == ""
    case MissingMeter => IsSessionEvent(e) && e.meter.None?
    case BadCost => e.eventType.SessionStop? && e.costEur < 0.0
    case BadStatus => e.eventType.StatusChange? && e.status !in {Available, Charging, Faulted}
    case MissingFault => e.eventType.FaultAlert? && (e.fault.None? || e.fault.value.errorCode == "")
    case SocOutOfRange => e.meter.Some? && !(0 <= e.meter.value.socPercent <= 100)
    case BadPower => e.meter.Some? && !(0.0 <= e.meter.value.powerKw <= 1000.0)
    case BadEnergy => e.meter.Some? && e.meter.value.energyKwh < 0.0
    case BadVoltage => e.meter.Some? && e.meter.value.voltageV < 0.0
    case BadCurrent => e.meter.Some? && e.meter.value.currentA < 0.0
  }

  /** The order in which the rules are reported. */
  function Rank(rule: Rule): nat {
    match rule
    case InvalidJson => 0
    case MissingEventId => 1
    case BadEventId => 2
    case UnknownEventType => 3
    case UnknownStation => 4
    case BadTimestamp => 5
    case MissingOperator => 6
    case MissingLocation => 7
    case BadGeo => 8
    case OperatorMismatch => 9
    case CityMismatch => 10
    case CountryMismatch => 11
    case GeoMismatch => 12
    case BadConnector => 13
    case ConnectorOutOfRange => 14
    case UnknownTariff => 15
    case MissingSession => 16
    case MissingVehicle => 17
    case MissingTariff => 18
    case MissingMeter => 19
    case BadCost => 20
    case BadStatus => 21
    case MissingFault => 22
    case SocOutOfRange => 23
    case BadPower => 24
    case BadEnergy => 25
    case BadVoltage => 26
    case BadCurrent => 27
  }

  /** No rule that ranks in [lo, hi) is violated. */
  ghost predicate Clean(e: Event, view: View, lo: nat, hi: nat) {
    forall rule | lo <= Rank(rule) < hi :: !Violates(e, view, rule)
  }

  /** The first violated rule among those that rank in [lo, hi), if any. */
  ghost predicate FirstIn(e: Event, view: View, lo: nat, hi: nat, found: Option<Rule>) {
    match found
    case None => Clean(e, view, lo, hi)
    case Some(rule) => lo <= Rank(rule) < hi && Violates(e, view, rule) && Clean(e, view, lo, Rank(rule))
  }

  lemma {:induction false} IdentityTells(e: Event, view: View)
    requires e.stationId in view.stations
    ensures FirstIn(e, view, 6, 15, CheckIdentity(e, view.stations[e.stationId]))
  {
  }

  lemma {:induction false} TypeTells(e: Event, view: View)
    requires !e.eventType.OtherType?
    ensures FirstIn(e, view, 16, 23, CheckByType(e))
  {
  }

  lemma {:induction false} MeterTells(e: Event, view: View)
    ensures FirstIn(e, view, 23, 28, if e.meter.Some? then ValidateMeter(e.meter.value) else None)
  {
  }

  lemma {:induction false} RanksAreBelow(rule: Rule)
    ensures Rank(rule) < 28
  {
  }

  lemma {:induction false} FirstOfTwo(
    e: Event, view: View, lo: nat, mid: nat, hi: nat, a: Option<Rule>, b: Option<Rule>)
    requires lo <= mid <= hi && FirstIn(e, view, lo, mid, a) && (a.None? ==> FirstIn(e, view, mid, hi, b))
    ensures FirstIn(e, view, lo, hi, if a.Some? then a else b)
  {
  }

  lemma {:induction false} HeadTells(e: Event, view: View)
    ensures FirstIn(e, view, 0, 6, CheckHead(e, view))
  {
    ValidIdIsUuidText(e.eventId);
  }

  lemma {:induction false} TariffTells(e: Event, view: View)
    ensures FirstIn(e, view, 15, 16, CheckTariff(e, view))
  {
  }

  /** The rule of a rejection, none for an acceptance. */
  function RuleOf(v: Verdict): Option<Rule> {
    match v
    case Accepted(_) => None
    case Rejected(rule) => Some(rule)
  }

  lemma {:induction false} VerdictIsFirst(e: Event, view: View)
    ensures FirstIn(e, view, 0, 28, RuleOf(Validate(e, view)))
  {
    HeadTells(e, view);
    if CheckHead(e, view).Some? {
      FirstOfTwo(e, view, 0, 6, 28, CheckHead(e, view), None);
    } else {
      var identity, tariff := CheckIdentity(e, view.stations[e.stationId]), CheckTariff(e, view);
      var shape, reading := CheckByType(e), if e.meter.Some? then ValidateMeter(e.meter.value) else None;
      IdentityTells(e, view);
      TariffTells(e, view);
      TypeTells(e, view);
      MeterTells(e, view);
      FirstOfTwo(e, view, 16, 23, 28, shape, reading);
      var late := if shape.Some? then shape else reading;
      FirstOfTwo(e, view, 15, 16, 28, tariff, late);
      late := if tariff.Some? then tariff else late;
      FirstOfTwo(e, view, 6, 15, 28, identity, late);
      late := if identity.Some? then identity else late;
      FirstOfTwo(e, view, 0, 6, 28, None, late);
    }
  }

  lemma {:induction false} RanksDiffer(a: Rule, b: Rule)
    ensures Rank(a) == Rank(b) ==> a == b
  {
  }

  lemma {:induction false} FirstIsUnique(e: Event, view: View, first: Rule, rule: Rule)
    requires FirstIn(e, view, 0, 28, Some(first)) && Violates(e, view, rule) && Clean(e, view, 0, Rank(rule))
    ensures first == rule
  {
    RanksDiffer(first, rule);
  }

  /** An event is rejected by a rule if and only if it violates it and no rule that comes before. */
  lemma {:induction false} RejectedIff(e: Event, view: View, rule: Rule)
    ensures Validate(e, view) == Rejected(rule) <==> Violates(e, view, rule) && Clean(e, view, 0, Rank(rule))
  {
    VerdictIsFirst(e, view);
    RanksAreBelow(rule);
    if Violates(e, view, rule) && Clean(e, view, 0, Rank(rule)) {
      var verdict := Validate(e, view);
      if verdict.Rejected? {
        FirstIsUnique(e, view, verdict.rule, rule);
      }
    }
  }

  /** An event is accepted, with its instant, if and only if it violates no rule. */
  lemma {:induction false} AcceptedIff(e: Event, view: View, ts: int)
    ensures Validate(e, view) == Accepted(ts) <==> e.timestamp == Some(ts) && forall rule :: !Violates(e, view, rule)
  {
    VerdictIsFirst(e, view);
    forall rule
      ensures Rank(rule) < 28
    {
      RanksAreBelow(rule);
    }
  }
}
