/**
  Report A2 (analytics/queries/A2_station_uptime.sql) for one connector: status segments cut to
  a window, with the status that held before the window carried in. Times are milliseconds.
 */
module Uptime {
  import opened Events

  datatype Change = Change(ts: int, status: Status)

  /** The connector's STATUS_CHANGE rows in order of time; rows of one instant in the order they were emitted. */
  predicate Timeline(hist: seq<Change>) {
    forall i, j | 0 <= i < j < |hist| :: hist[i].ts <= hist[j].ts
  }

  /** Branch (a): the rows within the window. */
  function Inside(hist: seq<Change>, start: int, end: int): seq<Change> {
    if hist == [] then []
    else
      var x := hist[|hist| - 1];
      var rest := Inside(hist[..|hist| - 1], start, end);
      if start <= x.ts <= end then rest + [x] else rest
  }

  /** Branch (b): argMax of the rows before the window. */
  function LatestBefore(hist: seq<Change>, start: int): Option<Change> {
    if hist == [] then None
    else
      var x := hist[|hist| - 1];
      var rest := LatestBefore(hist[..|hist| - 1], start);
      if x.ts < start && (rest.None? || rest.value.ts <= x.ts) then Some(x) else rest
  }

  /** The union, the carried row first and stamped at the window start. */
  function Changes(hist: seq<Change>, start: int, end: int): seq<Change> {
    var carried := LatestBefore(hist, start);
    (if carried.Some? then [Change(start, carried.value.status)] else []) + Inside(hist, start, end)
  }

  /** dateDiff('second', ...) counts second boundaries; greatest(..., 0). */
  function Seconds(a: int, b: int): nat {
    if b / 1000 >= a / 1000 then b / 1000 - a / 1000 else 0
  }

  /** Sum over segments that satisfy the flag; each ends at the next row or at the window end. */
  function Summed(cs: seq<Change>, end: int, onlyFaulted: bool): nat {
    if cs == [] then 0
    else
      var x := cs[|cs| - 1];
      Summed(cs[..|cs| - 1], x.ts, onlyFaulted) + (if !onlyFaulted || x.status.Faulted? then Seconds(x.ts, end) else 0)
  }

  function TotalSeconds(hist: seq<Change>, start: int, end: int): nat {
    Summed(Changes(hist, start, end), end, false)
  }

  function DowntimeSeconds(hist: seq<Change>, start: int, end: int): nat {
    Summed(Changes(hist, start, end), end, true)
  }

  // ---------------------------------------------------------------------------------------
  // The pointwise definition
  // ---------------------------------------------------------------------------------------

  /** The status in force just before instant `t`. */
  function StatusBefore(hist: seq<Change>, t: int): Option<Status> {
    if hist == [] then None
    else if hist[|hist| - 1].ts < t then Some(hist[|hist| - 1].status)
    else StatusBefore(hist[..|hist| - 1], t)
  }

  /** Whole-second instants in (lo, hi], in seconds, at which the connector is Faulted (or known at all). */
  function Ticks(hist: seq<Change>, lo: int, hi: int, onlyFaulted: bool): nat
    decreases hi - lo
  {
    if hi <= lo then 0
    else
      Ticks(hist, lo, hi - 1, onlyFaulted)
      + (match StatusBefore(hist, 1000 * hi)
         case None => 0
         case Some(s) => if !onlyFaulted || s.Faulted? then 1 else 0)
  }

  lemma {:induction false} TicksSplit(hist: seq<Change>, lo: int, mid: int, hi: int, onlyFaulted: bool)
    requires lo <= mid <= hi
    ensures Ticks(hist, lo, hi, onlyFaulted) == Ticks(hist, lo, mid, onlyFaulted) + Ticks(hist, mid, hi, onlyFaulted)
    decreases hi - mid
  {
    if mid < hi {
      TicksSplit(hist, lo, mid, hi - 1, onlyFaulted);
    }
  }

  /** After the last change its status holds at every tick. */
  lemma {:induction false} TicksAfterLast(hist: seq<Change>, lo: int, hi: int, onlyFaulted: bool)
    requires hist != [] && hist[|hist| - 1].ts / 1000 <= lo <= hi
    ensures Ticks(hist, lo, hi, onlyFaulted)
            == if !onlyFaulted || hist[|hist| - 1].status.Faulted? then hi - lo else 0
    decreases hi - lo
  {
    if lo < hi {
      TicksAfterLast(hist, lo, hi - 1, onlyFaulted);
      assert hist[|hist| - 1].ts < 1000 * hi;
    }
  }

  /** Up to the last change, it has no influence. */
  lemma {:induction false} TicksUpToLast(hist: seq<Change>, lo: int, hi: int, onlyFaulted: bool)
    requires hist != [] && hi <= hist[|hist| - 1].ts / 1000
    ensures Ticks(hist, lo, hi, onlyFaulted) == Ticks(hist[..|hist| - 1], lo, hi, onlyFaulted)
    decreases hi - lo
  {
    if lo < hi {
      TicksUpToLast(hist, lo, hi - 1, onlyFaulted);
      assert 1000 * hi <= hist[|hist| - 1].ts;
    }
  }

  lemma {:induction false} InsideUpTo(hist: seq<Change>, start: int, end: int, later: int)
    requires end <= later && forall i | 0 <= i < |hist| :: hist[i].ts <= end
    ensures Inside(hist, start, later) == Inside(hist, start, end)
  {
    if hist != [] {
      InsideUpTo(hist[..|hist| - 1], start, end, later);
    }
  }

  lemma {:induction false} AllBeforeStart(hist: seq<Change>, start: int, end: int)
    requires Timeline(hist) && hist != [] && hist[|hist| - 1].ts < start
    ensures Inside(hist, start, end) == [] && LatestBefore(hist, start) == Some(hist[|hist| - 1])
  {
    if |hist| > 1 {
      AllBeforeStart(hist[..|hist| - 1], start, end);
    }
  }

  /**
    The segment sums of A2 equal the pointwise count: downtime is the number of whole-second
    instants in the window just before which the connector was Faulted, and the total is the
    number of those at which its status was known at all.
   */
  lemma {:induction false} SegmentsCountTicks(hist: seq<Change>, start: int, end: int, onlyFaulted: bool)
    requires Timeline(hist) && start <= end
    requires forall i | 0 <= i < |hist| :: hist[i].ts <= end
    ensures Summed(Changes(hist, start, end), end, onlyFaulted) == Ticks(hist, start / 1000, end / 1000, onlyFaulted)
  {
    if hist == [] {
      NoTicks(start / 1000, end / 1000, onlyFaulted);
    } else {
      var n := |hist| - 1;
      var x := hist[n];
      if x.ts < start {
        AllBeforeStart(hist, start, end);
        TicksAfterLast(hist, start / 1000, end / 1000, onlyFaulted);
        var carried := Change(start, x.status);
        assert Changes(hist, start, end) == [carried];
        assert [carried][..0] == [];
      } else {
        SegmentsCountTicks(hist[..n], start, x.ts, onlyFaulted);
        InsideUpTo(hist[..n], start, x.ts, end);
        assert LatestBefore(hist, start) == LatestBefore(hist[..n], start);
        var cs := Changes(hist, start, end);
        assert cs[..|cs| - 1] == Changes(hist[..n], start, x.ts);
        TicksSplit(hist, start / 1000, x.ts / 1000, end / 1000, onlyFaulted);
        TicksUpToLast(hist, start / 1000, x.ts / 1000, onlyFaulted);
        TicksAfterLast(hist, x.ts / 1000, end / 1000, onlyFaulted);
      }
    }
  }

  lemma {:induction false} NoTicks(lo: int, hi: int, onlyFaulted: bool)
    ensures Ticks([], lo, hi, onlyFaulted) == 0
    decreases hi - lo
  {
    if lo < hi {
      NoTicks(lo, hi - 1, onlyFaulted);
    }
  }

  /** Segment lengths telescope from the first known instant to the window end. */
  lemma {:induction false} SegmentsTelescope(cs: seq<Change>, end: int)
    requires forall i, j | 0 <= i < j < |cs| :: cs[i].ts <= cs[j].ts
    requires forall i | 0 <= i < |cs| :: cs[i].ts <= end
    ensures Summed(cs, end, false) == if cs == [] then 0 else end / 1000 - cs[0].ts / 1000
    ensures Summed(cs, end, true) <= Summed(cs, end, false)
  {
    if cs != [] {
      SegmentsTelescope(cs[..|cs| - 1], cs[|cs| - 1].ts);
    }
  }

  lemma {:induction false} ChangesAreOrdered(hist: seq<Change>, start: int, end: int)
    requires Timeline(hist) && start <= end
    ensures forall i, j | 0 <= i < j < |Inside(hist, start, end)| ::
              Inside(hist, start, end)[i].ts <= Inside(hist, start, end)[j].ts
    ensures forall x | x in Inside(hist, start, end) :: x in hist && start <= x.ts <= end
  {
    if hist != [] {
      var n := |hist| - 1;
      ChangesAreOrdered(hist[..n], start, end);
      var rest := Inside(hist[..n], start, end);
      forall x | x in rest
        ensures x.ts <= hist[n].ts
      {
        assert x in hist[..n];
      }
      assert forall i | 0 <= i < |rest| :: rest[i] in rest;
    }
  }

  /** A2 for one connector: pointwise downtime, telescoping total, and 0 <= downtime <= total. */
  lemma {:induction false} UptimeIsPointwise(hist: seq<Change>, start: int, end: int)
    requires Timeline(hist) && start <= end
    requires forall i | 0 <= i < |hist| :: hist[i].ts <= end
    ensures DowntimeSeconds(hist, start, end) == Ticks(hist, start / 1000, end / 1000, true)
    ensures var cs := Changes(hist, start, end);
            TotalSeconds(hist, start, end) == if cs == [] then 0 else end / 1000 - cs[0].ts / 1000
    ensures DowntimeSeconds(hist, start, end) <= TotalSeconds(hist, start, end)
  {
    SegmentsCountTicks(hist, start, end, true);
    ChangesAreOrdered(hist, start, end);
    var cs, rows := Changes(hist, start, end), Inside(hist, start, end);
    assert forall i | 0 <= i < |rows| :: rows[i] in rows;
    SegmentsTelescope(cs, end);
  }

  // ---------------------------------------------------------------------------------------
  // Rows of one instant: neither the sort nor argMax says which comes first
  // ---------------------------------------------------------------------------------------

  predicate Tied(g: seq<Change>, t: int) {
    forall i | 0 <= i < |g| :: g[i].ts == t
  }

  /** End of the segment that follows `a` and `g` in `a + g + b`. */
  function NextStart(b: seq<Change>, end: int): int {
    if b == [] then end else b[0].ts
  }

  lemma {:induction false} SummedConcat(a: seq<Change>, b: seq<Change>, end: int, onlyFaulted: bool)
    ensures Summed(a + b, end, onlyFaulted) == Summed(a, NextStart(b, end), onlyFaulted) + Summed(b, end, onlyFaulted)
  {
    if b == [] {
      assert a + b == a;
    } else {
      var n := |b| - 1;
      assert (a + b)[..|a + b| - 1] == a + b[..n];
      SummedConcat(a, b[..n], b[n].ts, onlyFaulted);
    }
  }

  /** Of rows that share an instant only the one read last has a segment. */
  lemma {:induction false} LastOfTiedCounts(g: seq<Change>, t: int, end: int)
    requires g != [] && Tied(g, t)
    ensures Summed(g, end, true) == if g[|g| - 1].status.Faulted? then Seconds(t, end) else 0
  {
    if |g| > 1 {
      LastOfTiedCounts(g[..|g| - 1], t, t);
    }
  }

  /** The two readings of one instant give the same downtime. */
  predicate Agree(g: seq<Change>, h: seq<Change>, t: int, next: int)
    requires g != [] && h != []
  {
    g[|g| - 1].status.Faulted? == h[|h| - 1].status.Faulted? || Seconds(t, next) == 0
  }

  lemma {:induction false} TiedIff(a: seq<Change>, g: seq<Change>, h: seq<Change>, b: seq<Change>, t: int, end: int)
    requires g != [] && h != [] && Tied(g, t) && Tied(h, t)
    ensures Summed(a + h + b, end, true) == Summed(a + g + b, end, true) <==> Agree(g, h, t, NextStart(b, end))
  {
    SummedConcat(a + g, b, end, true);
    SummedConcat(a + h, b, end, true);
    SummedConcat(a, g, NextStart(b, end), true);
    SummedConcat(a, h, NextStart(b, end), true);
    LastOfTiedCounts(g, t, NextStart(b, end));
    LastOfTiedCounts(h, t, NextStart(b, end));
  }

  /**
    A2 under another reading order: when the rows `g` of one instant, be they changes in one
    millisecond or the carried row and changes exactly at the window start, are read as `h`, in
    any order, the downtime is right if and only if the rows read last agree on being Faulted or
    the segment after them spans no second.
   */
  lemma {:induction false} TieInReportIff(
    hist: seq<Change>, start: int, end: int, a: seq<Change>, g: seq<Change>, h: seq<Change>, b: seq<Change>, t: int)
    requires Timeline(hist) && start <= end
    requires forall i | 0 <= i < |hist| :: hist[i].ts <= end
    requires Changes(hist, start, end) == a + g + b && g != [] && Tied(g, t) && multiset(h) == multiset(g)
    ensures h != []
    ensures Summed(a + h + b, end, true) == Ticks(hist, start / 1000, end / 1000, true)
            <==> Agree(g, h, t, NextStart(b, end))
  {
    SegmentsCountTicks(hist, start, end, true);
    SameRowsTied(g, h, t);
    TiedIff(a, g, h, b, t, end);
  }

  lemma {:induction false} SameRowsTied(g: seq<Change>, h: seq<Change>, t: int)
    requires Tied(g, t) && multiset(h) == multiset(g) && g != []
    ensures h != [] && Tied(h, t)
  {
    assert g[0] in multiset(g);
    forall i | 0 <= i < |h|
      ensures h[i].ts == t
    {
      assert h[i] in multiset(h);
      assert h[i] in multiset(g);
    }
  }

  /** Row `i` is read with a status that agrees on being Faulted, or its segment spans no second. */
  predicate ReadRight(cs: seq<Change>, read: seq<Change>, i: nat, end: int)
    requires i < |cs| == |read|
  {
    && read[i].ts == cs[i].ts
    && (|| read[i].status.Faulted? == cs[i].status.Faulted?
        || Seconds(cs[i].ts, if i + 1 < |cs| then cs[i + 1].ts else end) == 0)
  }

  /**
    A reading of all rows at once: the instants are what the sort says; the statuses within an
    instant, and the carried one, are open. It is right when every row is read right.
   */
  lemma {:induction false} AgreeingReadingIsRight(cs: seq<Change>, read: seq<Change>, end: int)
    requires |read| == |cs| && forall i | 0 <= i < |cs| :: ReadRight(cs, read, i, end)
    ensures Summed(read, end, true) == Summed(cs, end, true)
  {
    if cs != [] {
      var n := |cs| - 1;
      assert ReadRight(cs, read, n, end);
      forall i | 0 <= i < n
        ensures ReadRight(cs[..n], read[..n], i, cs[n].ts)
      {
        assert ReadRight(cs, read, i, end);
      }
      AgreeingReadingIsRight(cs[..n], read[..n], cs[n].ts);
    }
  }

  /** With a status before the window and a change exactly at its start, the first two rows are tied. */
  lemma {:induction false} TieAtStartIff(hist: seq<Change>, start: int, end: int, before: Change, at: Change)
    requires Timeline(hist) && start <= end
    requires forall i | 0 <= i < |hist| :: hist[i].ts <= end
    requires before in hist && before.ts < start && at in hist && at.ts == start
    ensures var cs := Changes(hist, start, end);
            && |cs| > 1 && cs[0].ts == cs[1].ts == start
            && LatestBefore(hist, start).Some? && cs[0].status == LatestBefore(hist, start).value.status
            && (Summed([cs[1], cs[0]] + cs[2..], end, true) == Ticks(hist, start / 1000, end / 1000, true) <==>
                  Agree([cs[0], cs[1]], [cs[1], cs[0]], start, NextStart(cs[2..], end)))
  {
    CarriedExists(hist, start, before);
    InsideHas(hist, start, end, at);
    ChangesAreOrdered(hist, start, end);
    var rows, cs := Inside(hist, start, end), Changes(hist, start, end);
    var i :| 0 <= i < |rows| && rows[i] == at;
    assert rows[0] in rows;
    SwapFirstTwo(hist, start, end, cs);
  }

  lemma {:induction false} SwapFirstTwo(hist: seq<Change>, start: int, end: int, cs: seq<Change>)
    requires Timeline(hist) && start <= end
    requires forall i | 0 <= i < |hist| :: hist[i].ts <= end
    requires cs == Changes(hist, start, end) && |cs| > 1 && cs[0].ts == cs[1].ts == start
    ensures Summed([cs[1], cs[0]] + cs[2..], end, true) == Ticks(hist, start / 1000, end / 1000, true) <==>
              Agree([cs[0], cs[1]], [cs[1], cs[0]], start, NextStart(cs[2..], end))
  {
    var g, h, b := [cs[0], cs[1]], [cs[1], cs[0]], cs[2..];
    assert cs == [] + g + b;
    assert [] + h + b == h + b;
    TieInReportIff(hist, start, end, [], g, h, b, start);
  }

  lemma {:induction false} CarriedExists(hist: seq<Change>, start: int, before: Change)
    requires before in hist && before.ts < start
    ensures LatestBefore(hist, start).Some?
  {
    var n := |hist| - 1;
    if hist[n] != before {
      CarriedExists(hist[..n], start, before);
    }
  }

  lemma {:induction false} InsideHas(hist: seq<Change>, start: int, end: int, x: Change)
    requires x in hist && start <= x.ts <= end
    ensures x in Inside(hist, start, end)
  {
    var n := |hist| - 1;
    if hist[n] != x {
      InsideHas(hist[..n], start, end, x);
    }
  }

  /** What argMax may carry in: the status of any row of the last instant before the window. */
  predicate CanCarry(hist: seq<Change>, start: int, x: Change) {
    && x in hist && x.ts < start
    && forall i | 0 <= i < |hist| && hist[i].ts < start :: hist[i].ts <= x.ts
  }

  /**
    When argMax carries another row of the last instant before the window, the downtime is right
    if and only if it agrees on being Faulted or the first segment spans no second.
   */
  lemma {:induction false} CarriedTieIff(hist: seq<Change>, start: int, end: int, x: Change)
    requires Timeline(hist) && start <= end && CanCarry(hist, start, x)
    requires forall i | 0 <= i < |hist| :: hist[i].ts <= end
    ensures LatestBefore(hist, start).Some? && CanCarry(hist, start, LatestBefore(hist, start).value)
    ensures var rows := Inside(hist, start, end);
            Summed([Change(start, x.status)] + rows, end, true) == Ticks(hist, start / 1000, end / 1000, true) <==>
              || x.status.Faulted? == LatestBefore(hist, start).value.status.Faulted?
              || Seconds(start, NextStart(rows, end)) == 0
  {
    CarriedExists(hist, start, x);
    LatestCanBeCarried(hist, start);
    SegmentsCountTicks(hist, start, end, true);
    var rows := Inside(hist, start, end);
    var g, h := [Change(start, LatestBefore(hist, start).value.status)], [Change(start, x.status)];
    assert [] + g + rows == g + rows && [] + h + rows == h + rows;
    TiedIff([], g, h, rows, start, end);
  }

  lemma {:induction false} LatestCanBeCarried(hist: seq<Change>, start: int)
    ensures LatestBefore(hist, start).Some? ==> CanCarry(hist, start, LatestBefore(hist, start).value)
    ensures LatestBefore(hist, start).None? ==> forall i | 0 <= i < |hist| :: start <= hist[i].ts
  {
    if hist != [] {
      var n := |hist| - 1;
      LatestCanBeCarried(hist[..n], start);
      assert forall i | 0 <= i < n :: hist[..n][i] == hist[i];
      assert hist[n] in hist;
    }
  }

  /** A connector that faults exactly when the seven-day window opens can be reported as never down. */
  lemma {:induction false} TieAtStartCanFail()
    ensures var hist := [Change(0, Available), Change(1000, Faulted)];
            var end := 1000 + 604_800_000;
            && Timeline(hist) && Changes(hist, 1000, end) == [Change(1000, Available), Change(1000, Faulted)]
            && Ticks(hist, 1, end / 1000, true) == 604_800
            && Summed([Change(1000, Faulted), Change(1000, Available)], end, true) == 0
  {
    var hist := [Change(0, Available), Change(1000, Faulted)];
    var end := 1000 + 604_800_000;
    assert hist[..1] == [Change(0, Available)] && hist[..1][..0] == [];
    assert Inside(hist[..1], 1000, end) == [];
    assert Inside(hist, 1000, end) == [Change(1000, Faulted)];
    assert LatestBefore(hist, 1000) == LatestBefore(hist[..1], 1000) == Some(Change(0, Available));
    assert Changes(hist, 1000, end) == [Change(1000, Available), Change(1000, Faulted)];
    TicksAfterLast(hist, 1, end / 1000, true);
    LastOfTiedCounts([Change(1000, Faulted), Change(1000, Available)], 1000, end);
  }

  /** So can one that faulted in the millisecond of its last change before the window. */
  lemma {:induction false} CarriedTieCanFail()
    ensures var hist := [Change(0, Available), Change(0, Faulted)];
            var end := 1000 + 604_800_000;
            && Timeline(hist) && CanCarry(hist, 1000, hist[0]) && CanCarry(hist, 1000, hist[1])
            && Inside(hist, 1000, end) == []
            && Ticks(hist, 1, end / 1000, true) == 604_800
            && Summed([Change(1000, hist[0].status)], end, true) == 0
  {
    var hist := [Change(0, Available), Change(0, Faulted)];
    var end := 1000 + 604_800_000;
    assert hist[0] in hist && hist[1] in hist;
    AllBeforeStart(hist, 1000, end);
    TicksAfterLast(hist, 1, end / 1000, true);
    LastOfTiedCounts([Change(1000, hist[0].status)], 1000, end);
    assert Timeline(hist);
    assert CanCarry(hist, 1000, hist[0]);
    assert CanCarry(hist, 1000, hist[1]);
    assert Inside(hist, 1000, end) == [];
    assert Ticks(hist, 1, end / 1000, true) == 604_800;
    assert Summed([Change(1000, hist[0].status)], end, true) == 0;
  }
}
