/**
  Report A1 (analytics/queries/A1_hourly_energy.sql) and the energy of report A3: per-session
  increments of a cumulative register, clamped at zero and attributed to hours.
 */
module HourlyEnergy {
  import opened Events
  import opened ChargingModel
  import opened SimulatorRuns
  import opened SimulatorEnergy
  import opened SimulatorReadings

  function Max(a: real, b: real): real {
    if a < b then b else a
  }

  /** greatest(energy - lag(energy), 0); the first row's lag is 0. */
  function Increment(rs: seq<Reading>, i: nat): real
    requires i < |rs|
  {
    Max(rs[i].energyKwh - (if i == 0 then 0.0 else rs[i - 1].energyKwh), 0.0)
  }

  /** The increments of one session whose rows lie in [lo, hi). */
  function Within(rs: seq<Reading>, lo: int, hi: int): real {
    if rs == [] then 0.0
    else
      var n := |rs| - 1;
      Within(rs[..n], lo, hi) + (if lo <= rs[n].ts < hi then Increment(rs, n) else 0.0)
  }

  /** All increments of one session. */
  function Total(rs: seq<Reading>): real {
    if rs == [] then 0.0 else Total(rs[..|rs| - 1]) + Increment(rs, |rs| - 1)
  }

  // ---------------------------------------------------------------------------------------
  // The pointwise definition
  // ---------------------------------------------------------------------------------------

  /** The register just before instant `t`, 0 before the first reading. */
  function RegisterBefore(rs: seq<Reading>, t: int): real {
    if rs == [] then 0.0
    else if rs[|rs| - 1].ts < t then rs[|rs| - 1].energyKwh
    else RegisterBefore(rs[..|rs| - 1], t)
  }

  predicate InOrder(rs: seq<Reading>) {
    forall i, j | 0 <= i < j < |rs| :: rs[i].ts <= rs[j].ts
  }

  predicate NotNegative(rs: seq<Reading>) {
    forall i | 0 <= i < |rs| :: 0.0 <= rs[i].energyKwh
  }

  /** The energy of any period is the register at its end minus the register at its start. */
  lemma {:induction false} PeriodIsRegisterDifference(rs: seq<Reading>, lo: int, hi: int)
    requires Rising(rs) && InOrder(rs) && NotNegative(rs) && lo <= hi
    ensures Within(rs, lo, hi) == RegisterBefore(rs, hi) - RegisterBefore(rs, lo)
  {
    if rs != [] {
      var n := |rs| - 1;
      PeriodIsRegisterDifference(rs[..n], lo, hi);
      if rs[n].ts < hi && n > 0 {
        assert rs[..n][n - 1] == rs[n - 1] && rs[n - 1].ts <= rs[n].ts;
      }
    }
  }

  /** The report's rows for `count` consecutive hours from `start`. */
  function HourRow(rs: seq<Reading>, start: int, h: nat): real {
    Within(rs, start + 3_600_000 * h, start + 3_600_000 * (h + 1))
  }

  function SumOfHours(rs: seq<Reading>, start: int, count: nat): real {
    if count == 0 then 0.0 else SumOfHours(rs, start, count - 1) + HourRow(rs, start, count - 1)
  }

  /** The hours of any span add up to the register difference over the span. */
  lemma {:induction false} HoursTelescope(rs: seq<Reading>, start: int, count: nat)
    requires Rising(rs) && InOrder(rs) && NotNegative(rs)
    ensures SumOfHours(rs, start, count) == RegisterBefore(rs, start + 3_600_000 * count) - RegisterBefore(rs, start)
  {
    if count > 0 {
      HoursTelescope(rs, start, count - 1);
      PeriodIsRegisterDifference(rs, start + 3_600_000 * (count - 1), start + 3_600_000 * count);
    }
  }

  lemma {:induction false} NothingBefore(rs: seq<Reading>, t: int)
    requires forall i | 0 <= i < |rs| :: t <= rs[i].ts
    ensures RegisterBefore(rs, t) == 0.0
  {
    if rs != [] {
      NothingBefore(rs[..|rs| - 1], t);
    }
  }

  /** Hours that cover a whole session add up to its last register. */
  lemma {:induction false} CoveringHoursCountLastRegister(rs: seq<Reading>, start: int, count: nat)
    requires rs != [] && Rising(rs) && InOrder(rs) && NotNegative(rs)
    requires start <= rs[0].ts && rs[|rs| - 1].ts < start + 3_600_000 * count
    ensures SumOfHours(rs, start, count) == rs[|rs| - 1].energyKwh
  {
    HoursTelescope(rs, start, count);
    NothingBefore(rs, start);
  }

  // ---------------------------------------------------------------------------------------
  // When the clamp does not over-count
  // ---------------------------------------------------------------------------------------

  function Highest(rs: seq<Reading>): real {
    if rs == [] then 0.0 else Max(Highest(rs[..|rs| - 1]), rs[|rs| - 1].energyKwh)
  }

  function Lowest(rs: seq<Reading>): real
    requires rs != []
  {
    if |rs| == 1 then rs[0].energyKwh else Min(Lowest(rs[..|rs| - 1]), rs[|rs| - 1].energyKwh)
  }

  /** The register only ever rises from its highest value so far. */
  predicate SinglePeak(rs: seq<Reading>) {
    forall i, k | 0 <= i < k < |rs| && rs[k - 1].energyKwh < rs[k].energyKwh :: rs[i].energyKwh <= rs[k - 1].energyKwh
  }

  lemma {:induction false} HighestIsBound(rs: seq<Reading>)
    ensures forall i | 0 <= i < |rs| :: rs[i].energyKwh <= Highest(rs)
    ensures NotNegative(rs) ==> Highest(rs) == 0.0 || exists i :: 0 <= i < |rs| && rs[i].energyKwh == Highest(rs)
    ensures 0.0 <= Highest(rs)
  {
    if rs != [] {
      var n := |rs| - 1;
      HighestIsBound(rs[..n]);
      forall i | 0 <= i < |rs|
        ensures rs[i].energyKwh <= Highest(rs)
      {
        assert i < n ==> rs[..n][i] == rs[i];
      }
      if NotNegative(rs) && Highest(rs) != 0.0 {
        if Highest(rs) == rs[n].energyKwh {
        } else {
          var i :| 0 <= i < n && rs[..n][i].energyKwh == Highest(rs);
          assert rs[i].energyKwh == Highest(rs);
        }
      }
    }
  }

  /**
    Clamped increments never under-count a session, and they equal its highest register exactly
    when the register only ever rises from its highest value so far.
   */
  lemma {:induction false} TotalIsHighestIff(rs: seq<Reading>)
    requires NotNegative(rs)
    ensures Highest(rs) <= Total(rs)
    ensures Total(rs) == Highest(rs) <==> SinglePeak(rs)
  {
    if rs != [] {
      var n := |rs| - 1;
      TotalIsHighestIff(rs[..n]);
      PeakSnoc(rs);
      IncrementClosesTheGap(rs);
    }
  }

  /** The next increment reaches the highest register, and more unless it starts from the peak. */
  lemma {:induction false} IncrementClosesTheGap(rs: seq<Reading>)
    requires rs != [] && NotNegative(rs)
    ensures var n := |rs| - 1;
            && Highest(rs) <= Highest(rs[..n]) + Increment(rs, n)
            && (Highest(rs) == Highest(rs[..n]) + Increment(rs, n) <==>
                  (n > 0 && rs[n - 1].energyKwh < rs[n].energyKwh ==> rs[n - 1].energyKwh == Highest(rs[..n])))
  {
  }

  lemma {:induction false} PeakSnoc(rs: seq<Reading>)
    requires rs != [] && NotNegative(rs)
    ensures var n := |rs| - 1;
            SinglePeak(rs) <==>
              SinglePeak(rs[..n]) && (n > 0 && rs[n - 1].energyKwh < rs[n].energyKwh
                  ==> rs[n - 1].energyKwh == Highest(rs[..n]))
  {
    var n := |rs| - 1;
    HighestIsBound(rs[..n]);
    assert forall i | 0 <= i < n :: rs[..n][i] == rs[i];
    if SinglePeak(rs) {
      assert SinglePeak(rs[..n]);
    }
  }

  /** A session whose registers start at 0 and rise: the total is the last register and max - min. */
  lemma {:induction false} RisingTotal(rs: seq<Reading>)
    requires rs != [] && Rising(rs) && rs[0].energyKwh == 0.0
    ensures NotNegative(rs)
    ensures Total(rs) == rs[|rs| - 1].energyKwh == Highest(rs) - Lowest(rs)
  {
    forall i | 0 <= i < |rs|
      ensures 0.0 <= rs[i].energyKwh
    {
      if i > 0 {
        assert rs[0].energyKwh <= rs[i].energyKwh;
      }
    }
    assert SinglePeak(rs);
    TotalIsHighestIff(rs);
    ExtremesOfRising(rs);
  }

  lemma {:induction false} ExtremesOfRising(rs: seq<Reading>)
    requires rs != [] && Rising(rs) && NotNegative(rs)
    ensures Highest(rs) == rs[|rs| - 1].energyKwh && Lowest(rs) == rs[0].energyKwh
  {
    if |rs| > 1 {
      ExtremesOfRising(rs[..|rs| - 1]);
    }
  }

  /** Some of the readings, in order. */
  function Kept(rs: seq<Reading>, keep: seq<bool>): seq<Reading>
    requires |keep| == |rs|
  {
    if rs == [] then []
    else
      var n := |rs| - 1;
      Kept(rs[..n], keep[..n]) + (if keep[n] then [rs[n]] else [])
  }

  lemma {:induction false} KeptKeepsEnds(rs: seq<Reading>, keep: seq<bool>)
    requires |keep| == |rs| && rs != []
    ensures keep[0] ==> Kept(rs, keep) != [] && Kept(rs, keep)[0] == rs[0]
    ensures var kept := Kept(rs, keep); keep[|rs| - 1] ==> kept != [] && kept[|kept| - 1] == rs[|rs| - 1]
  {
    var n := |rs| - 1;
    if n > 0 {
      KeptKeepsEnds(rs[..n], keep[..n]);
    }
  }

  lemma {:induction false} KeptIsBelow(rs: seq<Reading>, keep: seq<bool>, top: real)
    requires |keep| == |rs| && forall i | 0 <= i < |rs| :: rs[i].energyKwh <= top
    ensures forall i | 0 <= i < |Kept(rs, keep)| :: Kept(rs, keep)[i].energyKwh <= top
  {
    if rs != [] {
      KeptIsBelow(rs[..|rs| - 1], keep[..|rs| - 1], top);
    }
  }

  lemma {:induction false} KeptRises(rs: seq<Reading>, keep: seq<bool>)
    requires |keep| == |rs| && Rising(rs)
    ensures Rising(Kept(rs, keep))
  {
    if rs != [] {
      var n := |rs| - 1;
      KeptRises(rs[..n], keep[..n]);
      KeptIsBelow(rs[..n], keep[..n], rs[n].energyKwh);
    }
  }

  /** Losing intermediate readings of a rising session leaves its total unchanged. */
  lemma {:induction false} LostReadingsDoNotMatter(rs: seq<Reading>, keep: seq<bool>)
    requires |keep| == |rs| && rs != [] && Rising(rs) && rs[0].energyKwh == 0.0
    requires keep[0] && keep[|rs| - 1]
    ensures Total(Kept(rs, keep)) == Total(rs)
  {
    KeptRises(rs, keep);
    KeptKeepsEnds(rs, keep);
    RisingTotal(rs);
    RisingTotal(Kept(rs, keep));
  }

  /** The same readings with the last two exchanged. */
  function SwapLast(rs: seq<Reading>): seq<Reading>
    requires |rs| >= 2
  {
    rs[..|rs| - 2] + [rs[|rs| - 1], rs[|rs| - 2]]
  }

  /** The one order that a shared millisecond leaves open makes no difference to the total. */
  lemma {:induction false} TieAtTheEndIsHarmless(rs: seq<Reading>)
    requires |rs| >= 2 && Rising(rs) && rs[0].energyKwh == 0.0
    ensures Total(SwapLast(rs)) == Total(rs)
  {
    RisingTotal(rs);
    ExtremesOfRising(rs);
    SwapKeepsPeak(rs);
    SwapKeepsHighest(rs);
    TotalIsHighestIff(SwapLast(rs));
  }

  lemma {:induction false} SwapKeepsPeak(rs: seq<Reading>)
    requires |rs| >= 2 && Rising(rs)
    ensures SinglePeak(SwapLast(rs))
    ensures NotNegative(rs) ==> NotNegative(SwapLast(rs))
  {
  }

  lemma {:induction false} SwapKeepsHighest(rs: seq<Reading>)
    requires |rs| >= 2
    ensures Highest(SwapLast(rs)) == Highest(rs)
  {
    var sw, n := SwapLast(rs), |rs|;
    assert sw[..n - 1][..n - 2] == rs[..n - 1][..n - 2];
    assert Highest(sw) == Max(Max(Highest(rs[..n - 1][..n - 2]), rs[n - 1].energyKwh), rs[n - 2].energyKwh);
  }

  /** What A1 makes of one session's readings, all of them or only those kept. */
  predicate AddsUp(rs: seq<Reading>, from: int, hours: nat, keep: seq<bool>) {
    && SumOfHours(rs, from, hours) == RegisterBefore(rs, from + 3_600_000 * hours) - RegisterBefore(rs, from)
    && (rs != [] ==> Total(rs) == rs[|rs| - 1].energyKwh == Highest(rs) - Lowest(rs))
    && (rs != [] && from <= rs[0].ts && rs[|rs| - 1].ts < from + 3_600_000 * hours ==>
          SumOfHours(rs, from, hours) == Total(rs))
    && (rs != [] && |keep| == |rs| && keep[0] && keep[|rs| - 1] ==> Total(Kept(rs, keep)) == Total(rs))
    && (|rs| >= 2 ==> Total(SwapLast(rs)) == Total(rs))
  }

  /**
    For every session of every simulator run: the hours of any span add up to the register
    difference over it, the whole session counts its last register, which is max - min, hours
    that cover the session add up to that same total, and losing any readings but the first and
    the last changes nothing.
   */
  lemma {:induction false} SimulatedSessionsAddUp(
    st: Station, windows: seq<PeakWindow>, c: ConnectorState, start: int, eventId: string, ticks: seq<Tick>,
    id: string, from: int, hours: nat, keep: seq<bool>)
    requires Idle(c) && Proper(start, ticks)
    ensures AddsUp(Readings(Run(st, windows, c, start, eventId, ticks).sent, id), from, hours, keep)
  {
    RegistersNeverFall(st, windows, c, start, eventId, ticks, id);
    SessionAddsUp(Readings(Run(st, windows, c, start, eventId, ticks).sent, id), from, hours, keep);
  }

  /** For every stop of every run, the clamped increments of its session add up to the register it carries. */
  lemma {:induction false} StoppedSessionCountsStopRegister(
    st: Station, windows: seq<PeakWindow>, c: ConnectorState, start: int, eventId: string, ticks: seq<Tick>, e: Event)
    requires Idle(c) && Proper(start, ticks)
    requires e in Run(st, windows, c, start, eventId, ticks).sent && e.eventType.SessionStop?
    ensures e.meter.Some?
    ensures Total(Readings(Run(st, windows, c, start, eventId, ticks).sent, e.sessionId)) == e.meter.value.energyKwh
  {
    StopCarriesLastRegister(st, windows, c, start, eventId, ticks, e);
    SimulatedSessionsAddUp(st, windows, c, start, eventId, ticks, e.sessionId, 0, 0, []);
  }

  lemma {:induction false} SessionAddsUp(rs: seq<Reading>, from: int, hours: nat, keep: seq<bool>)
    requires Rising(rs) && Timed(rs) && (rs != [] ==> rs[0].energyKwh == 0.0)
    ensures AddsUp(rs, from, hours, keep)
  {
    TimedIsInOrder(rs);
    HoursTelescope(rs, from, hours);
    if rs != [] {
      RisingTotal(rs);
      if from <= rs[0].ts && rs[|rs| - 1].ts < from + 3_600_000 * hours {
        CoveringHoursCountLastRegister(rs, from, hours);
      }
      if |keep| == |rs| && keep[0] && keep[|rs| - 1] {
        LostReadingsDoNotMatter(rs, keep);
      }
    }
    if |rs| >= 2 {
      TieAtTheEndIsHarmless(rs);
    }
  }

  lemma {:induction false} TimedIsInOrder(rs: seq<Reading>)
    requires Timed(rs)
    ensures InOrder(rs)
  {
  }
}
