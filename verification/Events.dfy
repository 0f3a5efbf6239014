/**
  The event as it travels from the simulator to the processor. Text that the pipeline
  only compares against a closed vocabulary (event type, connector status) is a datatype
  with an escape constructor for every other text; a timestamp is the parsed instant in
  milliseconds, or `None` when the text is not an RFC 3339 instant.
 */
module Events {
  datatype Option<+T> = None | Some(value: T)

  datatype EventType =
    | SessionStart
    | MeterUpdate
    | StatusChange
    | SessionStop
    | Heartbeat
    | FaultAlert
    | OtherType(text: string)

  datatype Status = NoStatus | Available | Charging | Faulted | OtherStatus(text: string)

  datatype Location = Location(lat: real, lon: real, city: string, country: string)

  datatype Meter = Meter(powerKw: real, energyKwh: real, voltageV: real, currentA: real, socPercent: int)

  datatype Vehicle = Vehicle(brand: string, model: string, evId: string)

  datatype Fault = Fault(errorCode: string, component: string)

  datatype Event = Event(
    eventId: string,
    eventType: EventType,
    stationId: string,
    connectorId: int,
    sessionId: string,
    timestamp: Option<int>,
    operatorId: string,
    location: Location,
    meter: Option<Meter>,
    vehicle: Option<Vehicle>,
    tariffId: string,
    costEur: real,
    fault: Option<Fault>,
    status: Status,
    isPeakPriced: bool)
}
