/** The tick loop over connectors, stations and groups (simulator/main.go). */
module Simulator {
  import opened Events
  import opened ChargingModel

  /** What one tick does to one connector: its next state, what it sends, the session count change. */
  datatype Outcome = Outcome(c: ConnectorState, sent: seq<Event>, delta: int)

  /** A session that is charging has a battery. */
  predicate Ready(c: ConnectorState) {
    c.status.Charging? ==> c.session.Some? && c.session.value.batteryKwh != 0.0
  }

  function FromFaulted(st: Station, c: ConnectorState, now: int, d: Draw): Outcome {
    if c.faultedUntil < now then
      var c' := c.(status := Available, idleUntil := now + d.idleGap);
      Outcome(c', [StatusEvent(st, c', now, Available, d.idA)], 0)
    else Outcome(c, [], 0)
  }

  function FromAvailable(st: Station, c: ConnectorState, now: int, d: Draw): Outcome
    requires Fair(d)
  {
    if d.faultHit then
      var c' := c.(status := Faulted, faultedUntil := now + d.downtime);
      Outcome(c', [AlertEvent(st, c, now, d, d.idA), StatusEvent(st, c', now, Faulted, d.idB)], 0)
    else if c.idleUntil < now then
      var c' := StartSession(c, now, d);
      Outcome(c', [StartEvent(st, c, now, d, d.idA), StatusEvent(st, c', now, Charging, d.idB)], 1)
    else Outcome(c, [], 0)
  }

  function FromCharging(st: Station, windows: seq<PeakWindow>, c: ConnectorState, now: int, d: Draw): Outcome
    requires Fair(d) && c.session.Some? && c.session.value.batteryKwh != 0.0
  {
    var s := c.session.value;
    if d.faultHit then
      var c' := StopSession(c, now).(status := Faulted, faultedUntil := now + d.downtime);
      Outcome(c', [AlertEvent(st, c, now, d, d.idA), StopEvent(st, c, now, windows, d.idB),
                   StatusEvent(st, c', now, Faulted, d.idC)], -1)
    else if s.endsAt < now || s.soc >= 100.0 then
      var at := EffectiveStopAt(s, now);
      var c' := StopSession(c, at).(idleUntil := now + d.idleGap);
      Outcome(c', [StopEvent(st, c, at, windows, d.idA), StatusEvent(st, c', now, Available, d.idB)], -1)
    else if c.nextMeterAt < now then
      Outcome(MeterTick(c, now, d), [MeterEvent(st, c, now, d, d.idA)], 0)
    else Outcome(c, [], 0)
  }

  function StepConnector(st: Station, windows: seq<PeakWindow>, c: ConnectorState, now: int, d: Draw): Outcome
    requires Fair(d) && Ready(c)
  {
    match c.status
    case Faulted => FromFaulted(st, c, now, d)
    case Available => FromAvailable(st, c, now, d)
    case Charging => FromCharging(st, windows, c, now, d)
    case _ => Outcome(c, [], 0)
  }

  /** The connectors of a station in one tick. */
  function StepConnectors(st: Station, windows: seq<PeakWindow>, cs: seq<ConnectorState>, now: int, ds: seq<Draw>)
    : (r: seq<Outcome>)
    requires AllReady(cs, ds)
    ensures |r| == |cs|
  {
    if cs == [] then []
    else
      var n := |cs| - 1;
      StepConnectors(st, windows, cs[..n], now, ds[..n]) + [StepConnector(st, windows, cs[n], now, ds[n])]
  }

  lemma {:induction false} OutcomeAt(
    st: Station, windows: seq<PeakWindow>, cs: seq<ConnectorState>, now: int, ds: seq<Draw>, i: nat)
    requires AllReady(cs, ds) && i < |cs|
    ensures StepConnectors(st, windows, cs, now, ds)[i] == StepConnector(st, windows, cs[i], now, ds[i])
  {
    var n := |cs| - 1;
    if i < n {
      OutcomeAt(st, windows, cs[..n], now, ds[..n], i);
    }
  }

  function AllSent(outs: seq<Outcome>): seq<Event> {
    if outs == [] then [] else AllSent(outs[..|outs| - 1]) + outs[|outs| - 1].sent
  }

  function NetOpened(outs: seq<Outcome>): int {
    if outs == [] then 0 else NetOpened(outs[..|outs| - 1]) + outs[|outs| - 1].delta
  }

  /** What the station itself draws in one tick. */
  datatype StationDraw = StationDraw(beatGap: int, beatId: string, connectors: seq<Draw>)

  class StationNode {
    const st: Station
    const connectors: seq<Connector>
    var nextHeartbeatAt: int

    constructor (st: Station, connectors: seq<Connector>, nextHeartbeatAt: int)
      ensures this.st == st && this.connectors == connectors && this.nextHeartbeatAt == nextHeartbeatAt
    {
      this.st, this.connectors, this.nextHeartbeatAt := st, connectors, nextHeartbeatAt;
    }
  }

  ghost predicate Distinct(cs: seq<Connector>) {
    forall i, j | 0 <= i < j < |cs| :: cs[i] != cs[j]
  }

  /** The connector objects hold these values. */
  ghost predicate Holds(cs: seq<Connector>, states: seq<ConnectorState>)
    reads cs
  {
    |states| == |cs| && forall i | 0 <= i < |cs| :: cs[i].State() == states[i]
  }

  function States(outs: seq<Outcome>): (r: seq<ConnectorState>)
    ensures |r| == |outs| && forall i | 0 <= i < |outs| :: r[i] == outs[i].c
  {
    seq(|outs|, i requires 0 <= i < |outs| => outs[i].c)
  }

  predicate AllReady(states: seq<ConnectorState>, ds: seq<Draw>) {
    && |ds| == |states|
    && forall i {:trigger states[i]} {:trigger ds[i]} | 0 <= i < |states| :: Fair(ds[i]) && Ready(states[i])
  }

  /** The events and the session counter of one worker. */
  class Sink {
    var sent: seq<Event>
    var active: int

    constructor ()
      ensures sent == [] && active == 0
    {
      sent, active := [], 0;
    }
  }

  method StepOne(st: Station, windows: seq<PeakWindow>, c: Connector, now: int, d: Draw, sink: Sink)
    requires Fair(d) && Ready(c.State())
    modifies c, sink
    ensures var o := StepConnector(st, windows, old(c.State()), now, d);
            && c.State() == o.c
            && sink.sent == old(sink.sent) + o.sent
            && sink.active == old(sink.active) + o.delta
  {
    ghost var was := c.State();
    var e: Event;
    ghost var after: Session;
    match c.status {
      case Faulted =>
        if now > c.faultedUntil {
          c.status := Available;
          c.idleUntil := now + d.idleGap;
          sink.sent := sink.sent + [StatusEvent(st, c.State(), now, Available, d.idA)];
        }
      case Available =>
        if d.faultHit {
          var alert := AlertEvent(st, c.State(), now, d, d.idA);
          c.status := Faulted;
          c.faultedUntil := now + d.downtime;
          sink.sent := sink.sent + [alert, StatusEvent(st, c.State(), now, Faulted, d.idB)];
        } else if now > c.idleUntil {
          e := c.Start(st, now, d, d.idA);
          sink.active := sink.active + 1;
          sink.sent := sink.sent + [e, StatusEvent(st, c.State(), now, Charging, d.idB)];
        }
      case Charging =>
        var s := c.session.value;
        if d.faultHit {
          var alert := AlertEvent(st, c.State(), now, d, d.idA);
          e, after := c.Stop(st, now, windows, d.idB);
          sink.active := sink.active - 1;
          c.status := Faulted;
          c.faultedUntil := now + d.downtime;
          sink.sent := sink.sent + [alert, e, StatusEvent(st, c.State(), now, Faulted, d.idC)];
        } else if now > s.endsAt || s.soc >= 100.0 {
          e, after := c.Stop(st, EffectiveStopAt(s, now), windows, d.idA);
          sink.active := sink.active - 1;
          c.idleUntil := now + d.idleGap;
          sink.sent := sink.sent + [e, StatusEvent(st, c.State(), now, Available, d.idB)];
        } else if now > c.nextMeterAt {
          e := c.Tick(st, now, d, d.idA);
          sink.sent := sink.sent + [e];
        }
      case _ =>
    }
  }

  /** The inner loop over a station's connectors. */
  method StepEach(st: Station, windows: seq<PeakWindow>, cs: seq<Connector>, now: int, ds: seq<Draw>, sink: Sink,
                  ghost was: seq<ConnectorState>) returns (ghost outs: seq<Outcome>)
    requires Distinct(cs) && Holds(cs, was) && AllReady(was, ds)
    modifies cs, sink
    ensures AreOutcomes(st, windows, was, now, ds, outs)
    ensures Holds(cs, States(outs))
    ensures sink.sent == old(sink.sent) + AllSent(outs)
    ensures sink.active == old(sink.active) + NetOpened(outs)
  {
    OutcomesOf(st, windows, was, now, ds);
    outs := StepConnectors(st, windows, was, now, ds);
    MixedEnds(outs, was);
    StepAll(st, windows, cs, now, ds, sink, was, outs);
  }

  /** The outcomes are those of one tick of these connectors. */
  ghost predicate AreOutcomes(
    st: Station, windows: seq<PeakWindow>, was: seq<ConnectorState>, now: int, ds: seq<Draw>, outs: seq<Outcome>)
    requires AllReady(was, ds)
  {
    |outs| == |was| && forall k | 0 <= k < |was| :: outs[k] == StepConnector(st, windows, was[k], now, ds[k])
  }

  lemma {:induction false} OutcomesOf(
    st: Station, windows: seq<PeakWindow>, was: seq<ConnectorState>, now: int, ds: seq<Draw>)
    requires AllReady(was, ds)
    ensures AreOutcomes(st, windows, was, now, ds, StepConnectors(st, windows, was, now, ds))
  {
    forall k | 0 <= k < |was|
      ensures StepConnectors(st, windows, was, now, ds)[k] == StepConnector(st, windows, was[k], now, ds[k])
    {
      OutcomeAt(st, windows, was, now, ds, k);
    }
  }

  /** The loop, for outcomes that are already known. */
  method StepAll(st: Station, windows: seq<PeakWindow>, cs: seq<Connector>, now: int, ds: seq<Draw>, sink: Sink,
                 ghost was: seq<ConnectorState>, ghost outs: seq<Outcome>)
    requires Distinct(cs) && |cs| == |was| && AllReady(was, ds) && AreOutcomes(st, windows, was, now, ds, outs)
    requires Holds(cs, Mixed(outs, was, 0))
    modifies cs, sink
    ensures Holds(cs, Mixed(outs, was, |cs|))
    ensures sink.sent == old(sink.sent) + AllSent(outs)
    ensures sink.active == old(sink.active) + NetOpened(outs)
  {
    for i := 0 to |cs|
      invariant Holds(cs, Mixed(outs, was, i))
      invariant sink.sent == old(sink.sent) + AllSent(outs[..i])
      invariant sink.active == old(sink.active) + NetOpened(outs[..i])
    {
      StepAt(st, windows, cs, i, now, ds, sink, was, outs);
    }
    assert outs[..|cs|] == outs;
  }

  /** A station whose first `n` connectors have taken their turn. */
  function Mixed(outs: seq<Outcome>, was: seq<ConnectorState>, n: nat): seq<ConnectorState>
    requires n <= |outs| == |was|
  {
    States(outs[..n]) + was[n..]
  }

  lemma {:induction false} MixedEnds(outs: seq<Outcome>, was: seq<ConnectorState>)
    requires |outs| == |was|
    ensures Mixed(outs, was, 0) == was && Mixed(outs, was, |was|) == States(outs)
  {
    assert outs[..|was|] == outs;
  }

  lemma {:induction false} MixedStep(outs: seq<Outcome>, was: seq<ConnectorState>, k: nat)
    requires k < |outs| == |was|
    ensures Mixed(outs, was, k)[k] == was[k]
    ensures Mixed(outs, was, k + 1) == Mixed(outs, was, k)[k := outs[k].c]
  {
  }

  /** One round of the loop, for outcomes that are already known. */
  method StepAt(st: Station, windows: seq<PeakWindow>, cs: seq<Connector>, i: nat, now: int, ds: seq<Draw>, sink: Sink,
                ghost was: seq<ConnectorState>, ghost outs: seq<Outcome>)
    requires Distinct(cs) && i < |cs| == |was| && AllReady(was, ds)
    requires AreOutcomes(st, windows, was, now, ds, outs) && Holds(cs, Mixed(outs, was, i))
    modifies cs[i], sink
    ensures Holds(cs, Mixed(outs, was, i + 1))
    ensures AllSent(outs[..i + 1]) == AllSent(outs[..i]) + outs[i].sent
    ensures sink.sent == old(sink.sent) + outs[i].sent
    ensures sink.active == old(sink.active) + NetOpened(outs[..i + 1]) - NetOpened(outs[..i])
  {
    assert outs[..i + 1][..i] == outs[..i];
    MixedStep(outs, was, i);
    StepOne(st, windows, cs[i], now, ds[i], sink);
  }

  method Beat(node: StationNode, now: int, d: StationDraw, sink: Sink)
    modifies node, sink`sent
    ensures sink.sent == old(sink.sent) + if old(node.nextHeartbeatAt) < now
        then [HeartbeatEvent(node.st, now, d.beatId)] else []
    ensures node.nextHeartbeatAt == if old(node.nextHeartbeatAt) < now then now + d.beatGap
        else old(node.nextHeartbeatAt)
  {
    if now > node.nextHeartbeatAt {
      sink.sent := sink.sent + [HeartbeatEvent(node.st, now, d.beatId)];
      node.nextHeartbeatAt := now + d.beatGap;
    }
  }

  /** One station in one tick: a heartbeat when due, then every connector in order. */
  method StepStation(node: StationNode, windows: seq<PeakWindow>, now: int, d: StationDraw, sink: Sink,
                     ghost was: seq<ConnectorState>) returns (ghost outs: seq<Outcome>)
    requires Distinct(node.connectors) && Holds(node.connectors, was) && AllReady(was, d.connectors)
    modifies node, node.connectors, sink
    ensures AreOutcomes(node.st, windows, was, now, d.connectors, outs)
    ensures Holds(node.connectors, States(outs))
    ensures sink.active == old(sink.active) + NetOpened(outs)
    ensures sink.sent == old(sink.sent)
                         + (if old(node.nextHeartbeatAt) < now then [HeartbeatEvent(node.st, now, d.beatId)] else [])
                         + AllSent(outs)
    ensures node.nextHeartbeatAt == if old(node.nextHeartbeatAt) < now then now + d.beatGap
        else old(node.nextHeartbeatAt)
  {
    Beat(node, now, d, sink);
    outs := StepEach(node.st, windows, node.connectors, now, d.connectors, sink, was);
  }

  // ---------------------------------------------------------------------------------------
  // The active-session counter
  // ---------------------------------------------------------------------------------------

  function OpenSessions(cs: seq<ConnectorState>): nat {
    if cs == [] then 0
    else OpenSessions(cs[..|cs| - 1]) + (if cs[|cs| - 1].session.Some? then 1 else 0)
  }

  /** Charging exactly when a session exists; this is what the tick relies on. */
  predicate Coherent(c: ConnectorState) {
    && (c.status.Available? || c.status.Charging? || c.status.Faulted?)
    && (c.status.Charging? <==> c.session.Some?)
    && (c.session.Some? ==> c.session.value.batteryKwh > 0.0)
  }

  predicate AllCoherent(cs: seq<ConnectorState>) {
    forall i {:trigger cs[i]} | 0 <= i < |cs| :: Coherent(cs[i])
  }

  lemma {:induction false} FleetIsSound()
    ensures forall i | 0 <= i < |FLEET| ::
              FLEET[i].brand != "" && 60.0 <= FLEET[i].batteryKwh && 100.0 <= FLEET[i].maxAcceptKw <= 250.0
  {
  }

  lemma {:induction false} StepKeepsCoherent(
    st: Station, windows: seq<PeakWindow>, c: ConnectorState, now: int, d: Draw)
    requires Fair(d) && Coherent(c)
    ensures var o := StepConnector(st, windows, c, now, d);
            && Coherent(o.c)
            && o.delta == (if o.c.session.Some? then 1 else 0) - (if c.session.Some? then 1 else 0)
  {
    FleetIsSound();
  }

  /** One connector's turn within a tick of its station. */
  datatype Turn = Turn(station: nat, connector: nat, now: int, draw: Draw)

  /** The connectors of all stations and the counter that all groups share. */
  datatype Fleet = Fleet(stations: seq<seq<ConnectorState>>, active: int)

  /** Groups of stations run concurrently, so turns of different stations interleave at will. */
  function TakeTurn(sts: seq<Station>, windows: seq<PeakWindow>, f: Fleet, turn: Turn): Fleet {
    var i, k := turn.station, turn.connector;
    if i < |sts| && i < |f.stations| && k < |f.stations[i]| && Fair(turn.draw) && Ready(f.stations[i][k]) then
      var o := StepConnector(sts[i], windows, f.stations[i][k], turn.now, turn.draw);
      Fleet(f.stations[i := f.stations[i][k := o.c]], f.active + o.delta)
    else f
  }

  function FleetRun(sts: seq<Station>, windows: seq<PeakWindow>, f: Fleet, turns: seq<Turn>): Fleet {
    if turns == [] then f
    else TakeTurn(sts, windows, FleetRun(sts, windows, f, turns[..|turns| - 1]), turns[|turns| - 1])
  }

  function AllOpen(stations: seq<seq<ConnectorState>>): nat {
    if stations == [] then 0 else AllOpen(stations[..|stations| - 1]) + OpenSessions(stations[|stations| - 1])
  }

  predicate FleetCoherent(stations: seq<seq<ConnectorState>>) {
    forall i | 0 <= i < |stations| :: AllCoherent(stations[i])
  }

  function Open(c: ConnectorState): nat {
    if c.session.Some? then 1 else 0
  }

  lemma {:induction false} OpenUpdate(cs: seq<ConnectorState>, k: nat, c: ConnectorState)
    requires k < |cs|
    ensures OpenSessions(cs[k := c]) == OpenSessions(cs) + Open(c) - Open(cs[k])
  {
    var n := |cs| - 1;
    if k < n {
      OpenUpdate(cs[..n], k, c);
      assert cs[k := c][..n] == cs[..n][k := c];
    } else {
      assert cs[k := c][..n] == cs[..n];
    }
  }

  lemma {:induction false} AllOpenUpdate(stations: seq<seq<ConnectorState>>, i: nat, cs: seq<ConnectorState>)
    requires i < |stations|
    ensures AllOpen(stations[i := cs]) == AllOpen(stations) + OpenSessions(cs) - OpenSessions(stations[i])
  {
    var n := |stations| - 1;
    if i < n {
      AllOpenUpdate(stations[..n], i, cs);
      assert stations[i := cs][..n] == stations[..n][i := cs];
    } else {
      assert stations[i := cs][..n] == stations[..n];
    }
  }

  lemma {:induction false} TurnKeepsCounter(f: Fleet, i: nat, k: nat, o: Outcome)
    requires i < |f.stations| && k < |f.stations[i]| && FleetCoherent(f.stations) && Coherent(o.c)
    requires f.active == AllOpen(f.stations) && o.delta == Open(o.c) - Open(f.stations[i][k])
    ensures var stations := f.stations[i := f.stations[i][k := o.c]];
            FleetCoherent(stations) && f.active + o.delta == AllOpen(stations)
  {
    OpenUpdate(f.stations[i], k, o.c);
    AllOpenUpdate(f.stations, i, f.stations[i][k := o.c]);
  }

  /**
    Over every interleaving of the turns of all connectors of all stations, Charging holds exactly
    where a session exists and the shared counter equals the number of open sessions in the fleet.
   */
  lemma {:induction false} CounterIsExact(sts: seq<Station>, windows: seq<PeakWindow>, f: Fleet, turns: seq<Turn>)
    requires FleetCoherent(f.stations) && f.active == AllOpen(f.stations)
    ensures var r := FleetRun(sts, windows, f, turns);
            FleetCoherent(r.stations) && r.active == AllOpen(r.stations)
  {
    if turns != [] {
      var n := |turns| - 1;
      CounterIsExact(sts, windows, f, turns[..n]);
      LastTurnKeepsCounter(sts, windows, FleetRun(sts, windows, f, turns[..n]), turns[n]);
    }
  }

  lemma {:induction false} LastTurnKeepsCounter(sts: seq<Station>, windows: seq<PeakWindow>, f: Fleet, turn: Turn)
    requires FleetCoherent(f.stations) && f.active == AllOpen(f.stations)
    ensures var r := TakeTurn(sts, windows, f, turn);
            FleetCoherent(r.stations) && r.active == AllOpen(r.stations)
  {
    var i, k := turn.station, turn.connector;
    if i < |sts| && i < |f.stations| && k < |f.stations[i]| && Fair(turn.draw) && Ready(f.stations[i][k]) {
      assert AllCoherent(f.stations[i]);
      var c := f.stations[i][k];
      StepKeepsCoherent(sts[i], windows, c, turn.now, turn.draw);
      TurnKeepsCounter(f, i, k, StepConnector(sts[i], windows, c, turn.now, turn.draw));
    }
  }

  /** The turns of the first `n` connectors of a station in one tick. */
  function TurnsOf(i: nat, now: int, ds: seq<Draw>, n: nat): seq<Turn>
    requires n <= |ds|
  {
    if n == 0 then [] else TurnsOf(i, now, ds, n - 1) + [Turn(i, n - 1, now, ds[n - 1])]
  }

  /** A tick of one station is a run of its connectors' turns. */
  lemma {:induction false} StationTickIsARun(
    sts: seq<Station>, windows: seq<PeakWindow>, f: Fleet, i: nat, now: int, ds: seq<Draw>)
    requires i < |sts| && i < |f.stations| && AllReady(f.stations[i], ds)
    ensures var outs := StepConnectors(sts[i], windows, f.stations[i], now, ds);
            FleetRun(sts, windows, f, TurnsOf(i, now, ds, |ds|))
            == Fleet(f.stations[i := States(outs)], f.active + NetOpened(outs))
  {
    var outs := StepConnectors(sts[i], windows, f.stations[i], now, ds);
    OutcomesOf(sts[i], windows, f.stations[i], now, ds);
    var turns := FirstTurnsAreARun(sts, windows, f, i, now, ds, outs, |ds|);
    MixedEnds(outs, f.stations[i]);
    assert outs[..|ds|] == outs;
  }

  /** Station `i` after the turns of its first `n` connectors. */
  function Partly(f: Fleet, i: nat, outs: seq<Outcome>, n: nat): Fleet
    requires i < |f.stations| && n <= |outs| == |f.stations[i]|
  {
    Fleet(f.stations[i := Mixed(outs, f.stations[i], n)], f.active + NetOpened(outs[..n]))
  }

  lemma {:induction false} NoneYet(f: Fleet, i: nat, outs: seq<Outcome>)
    requires i < |f.stations| && |outs| == |f.stations[i]|
    ensures Partly(f, i, outs, 0) == f
  {
    MixedEnds(outs, f.stations[i]);
    assert f.stations[i := f.stations[i]] == f.stations;
  }

  lemma {:induction false} FirstTurnsAreARun(
    sts: seq<Station>, windows: seq<PeakWindow>, f: Fleet, i: nat, now: int, ds: seq<Draw>, outs: seq<Outcome>, n: nat)
    returns (turns: seq<Turn>)
    requires i < |sts| && i < |f.stations| && AllReady(f.stations[i], ds) && n <= |ds|
    requires AreOutcomes(sts[i], windows, f.stations[i], now, ds, outs)
    ensures turns == TurnsOf(i, now, ds, n)
    ensures FleetRun(sts, windows, f, turns) == Partly(f, i, outs, n)
  {
    turns := [];
    NoneYet(f, i, outs);
    for k := 0 to n
      invariant turns == TurnsOf(i, now, ds, k)
      invariant FleetRun(sts, windows, f, turns) == Partly(f, i, outs, k)
    {
      NextTurn(sts, windows, f, i, now, ds, outs, k, turns);
      turns := turns + [Turn(i, k, now, ds[k])];
    }
  }

  /** After the turns of the connectors before `k`, connector `k` takes its turn. */
  lemma {:induction false} NextTurn(
    sts: seq<Station>, windows: seq<PeakWindow>, f: Fleet, i: nat, now: int, ds: seq<Draw>, outs: seq<Outcome>, k: nat,
    turns: seq<Turn>)
    requires i < |sts| && i < |f.stations| && AllReady(f.stations[i], ds) && k < |ds| == |outs|
    requires AreOutcomes(sts[i], windows, f.stations[i], now, ds, outs)
    requires FleetRun(sts, windows, f, turns) == Partly(f, i, outs, k)
    ensures FleetRun(sts, windows, f, turns + [Turn(i, k, now, ds[k])]) == Partly(f, i, outs, k + 1)
  {
    var cs := f.stations[i];
    OneMore(f, i, outs, k);
    assert Ready(cs[k]) && Fair(ds[k]);
    assert (turns + [Turn(i, k, now, ds[k])])[..|turns|] == turns;
  }

  lemma {:induction false} OneMore(f: Fleet, i: nat, outs: seq<Outcome>, k: nat)
    requires i < |f.stations| && k < |outs| == |f.stations[i]|
    ensures var p := Partly(f, i, outs, k);
            && p.stations[i][k] == f.stations[i][k]
            && Partly(f, i, outs, k + 1) == Fleet(p.stations[i := p.stations[i][k := outs[k].c]],
                p.active + outs[k].delta)
  {
    MixedStep(outs, f.stations[i], k);
    assert outs[..k + 1][..k] == outs[..k];
  }
}
