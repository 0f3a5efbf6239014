/**
  Revenue: the streaming rollup of deploy/clickhouse/init/02_aggregates.sql, which sums every
  inserted SESSION_STOP before deduplication, and the daily reconciliation of
  deploy/airflow/dags/ev_analytics_daily.py, which replaces one day of it by the exact sums.
 */
module Revenue {
  import opened Events
  import opened Analytics
  import opened ReplacingStore

  datatype Bucket = Bucket(hour: int, operatorId: string, city: string, tariffId: string, isPeak: bool)

  datatype Totals = Totals(revenue: real, sessions: int)

  const ZERO := Totals(0.0, 0)

  function Plus(a: Totals, b: Totals): Totals {
    Totals(a.revenue + b.revenue, a.sessions + b.sessions)
  }

  predicate AtMost(a: Totals, b: Totals) {
    a.revenue <= b.revenue && a.sessions <= b.sessions
  }

  /** toStartOfHour. */
  function HourOf(ts: int): int {
    ts - ts % 3_600_000
  }

  ghost predicate OnTheHour(t: int) {
    exists h :: t == Hours(h)
  }

  function Hours(h: int): int {
    3_600_000 * h
  }

  /** A stop counts; the validator lets no event without an instant through. */
  predicate Counts(e: Event) {
    e.eventType.SessionStop? && e.timestamp.Some?
  }

  function BucketOf(e: Event): Bucket
    requires e.timestamp.Some?
  {
    Bucket(HourOf(e.timestamp.value), e.operatorId, e.location.city, e.tariffId, e.isPeakPriced)
  }

  predicate FallsIn(e: Event, b: Bucket) {
    Counts(e) && BucketOf(e) == b
  }

  /** What one event adds to one bucket. */
  function Worth(e: Event, b: Bucket): Totals {
    if FallsIn(e, b) then Totals(e.costEur, 1) else ZERO
  }

  /** The revenue and the number of sessions of a bucket, read off a list of events. */
  function Sum(es: seq<Event>, b: Bucket): Totals {
    if es == [] then ZERO else Plus(Sum(es[..|es| - 1], b), Worth(es[|es| - 1], b))
  }

  function EventsOf(rows: seq<CleanRow>): seq<Event> {
    seq(|rows|, i requires 0 <= i < |rows| => rows[i].event)
  }

  predicate Billable(e: Event) {
    Counts(e) ==> 0.0 <= e.costEur
  }

  predicate Payable(rows: seq<CleanRow>) {
    forall i | 0 <= i < |rows| :: Billable(rows[i].event)
  }

  /** The event is a stop of the bucket's hour, operator, city, tariff and pricing. */
  predicate BelongsTo(e: Event, b: Bucket) {
    && e.eventType == SessionStop && e.timestamp.Some?
    && b.hour % 3_600_000 == 0 && b.hour <= e.timestamp.value < b.hour + 3_600_000
    && b.operatorId == e.operatorId && b.city == e.location.city
    && b.tariffId == e.tariffId && b.isPeak == e.isPeakPriced
  }

  /** What one event adds to a bucket: its cost and one session, if it belongs there. */
  lemma {:induction false} WorthIs(e: Event, b: Bucket)
    ensures Worth(e, b) == if BelongsTo(e, b) then Totals(e.costEur, 1) else Totals(0.0, 0)
  {
  }

  /** A bucket starts empty and grows, event by event, by what belongs to it. */
  lemma {:induction false} SumIsExact(es: seq<Event>, e: Event, b: Bucket)
    ensures Sum([], b) == Totals(0.0, 0)
    ensures Sum(es + [e], b).revenue == Sum(es, b).revenue + if BelongsTo(e, b) then e.costEur else 0.0
    ensures Sum(es + [e], b).sessions == Sum(es, b).sessions + if BelongsTo(e, b) then 1 else 0
  {
    SumSnoc(es, e, b);
    PlusIs(Sum(es, b), Worth(e, b));
    WorthIs(e, b);
  }

  lemma {:induction false} PlusIs(x: Totals, y: Totals)
    ensures Plus(x, y).revenue == x.revenue + y.revenue && Plus(x, y).sessions == x.sessions + y.sessions
  {
  }

  function Members(es: seq<Event>, b: Bucket): set<nat> {
    set i: nat | i < |es| && BelongsTo(es[i], b)
  }

  /** The sessions of a bucket are as many as its events. */
  lemma {:induction false} SessionsAreCounted(es: seq<Event>, b: Bucket)
    ensures Sum(es, b).sessions == |Members(es, b)|
  {
    if es == [] {
      assert Members(es, b) == {};
    } else {
      var n := |es| - 1;
      SessionsAreCounted(es[..n], b);
      assert es == es[..n] + [es[n]];
      SumIsExact(es[..n], es[n], b);
      MembersSnoc(es, b);
    }
  }

  lemma {:induction false} MembersSnoc(es: seq<Event>, b: Bucket)
    requires es != []
    ensures var n := |es| - 1;
            |Members(es, b)| == |Members(es[..n], b)| + if BelongsTo(es[n], b) then 1 else 0
  {
    var n := |es| - 1;
    assert Members(es, b) == Members(es[..n], b) + if BelongsTo(es[n], b) then {n} else {};
  }

  // ---------------------------------------------------------------------------------------
  // The summing table
  // ---------------------------------------------------------------------------------------

  datatype RollupRow = RollupRow(bucket: Bucket, totals: Totals)

  /** A reader adds up all rows of a bucket, merged or not. */
  function Read(rows: seq<RollupRow>, b: Bucket): Totals {
    if rows == [] then ZERO
    else
      var n := |rows| - 1;
      if rows[n].bucket == b then Plus(Read(rows[..n], b), rows[n].totals) else Read(rows[..n], b)
  }

  function Slot(rows: seq<RollupRow>, b: Bucket): (i: nat)
    ensures i <= |rows|
    ensures i < |rows| ==> rows[i].bucket == b
    ensures forall j | 0 <= j < i :: rows[j].bucket != b
  {
    if rows == [] then 0 else if rows[0].bucket == b then 0 else 1 + Slot(rows[1..], b)
  }

  /** One row joins its group. */
  function Join(rows: seq<RollupRow>, e: Event): seq<RollupRow> {
    if !Counts(e) then rows
    else
      var b := BucketOf(e);
      var i := Slot(rows, b);
      if i == |rows| then rows + [RollupRow(b, Worth(e, b))]
      else rows[i := RollupRow(b, Plus(rows[i].totals, Worth(e, b)))]
  }

  /** SELECT ..., sum(cost_eur), count() ... WHERE event_type = 'SESSION_STOP' GROUP BY ... */
  function Grouped(es: seq<Event>): seq<RollupRow> {
    if es == [] then [] else Join(Grouped(es[..|es| - 1]), es[|es| - 1])
  }

  /** ALTER TABLE ... DELETE WHERE lo <= hour < hi. */
  function Outside(rows: seq<RollupRow>, lo: int, hi: int): seq<RollupRow> {
    if rows == [] then []
    else
      var n := |rows| - 1;
      Outside(rows[..n], lo, hi) + (if lo <= rows[n].bucket.hour < hi then [] else [rows[n]])
  }

  /** WHERE lo <= timestamp < hi. */
  function During(es: seq<Event>, lo: int, hi: int): seq<Event> {
    if es == [] then []
    else
      var n := |es| - 1;
      During(es[..n], lo, hi)
      + (if es[n].timestamp.Some? && lo <= es[n].timestamp.value < hi then [es[n]] else [])
  }

  lemma {:induction false} ReadConcat(a: seq<RollupRow>, c: seq<RollupRow>, b: Bucket)
    ensures Read(a + c, b) == Plus(Read(a, b), Read(c, b))
  {
    if c == [] {
      assert a + c == a;
    } else {
      var n := |c| - 1;
      assert (a + c)[..|a + c| - 1] == a + c[..n];
      ReadConcat(a, c[..n], b);
    }
  }

  lemma {:induction false} ReadSnoc(rows: seq<RollupRow>, r: RollupRow, b: Bucket)
    ensures Read(rows + [r], b) == Plus(Read(rows, b), Cell(r, b))
  {
  }

  /** What one row shows a reader of a bucket. */
  function Cell(r: RollupRow, b: Bucket): Totals {
    if r.bucket == b then r.totals else ZERO
  }

  lemma {:induction false} ReadAround(a: seq<RollupRow>, r: RollupRow, c: seq<RollupRow>, b: Bucket)
    ensures Read(a + [r] + c, b) == Plus(Plus(Read(a, b), Cell(r, b)), Read(c, b))
  {
    assert (a + [r])[..|a|] == a;
    ReadConcat(a + [r], c, b);
  }

  /** Replacing one row by another replaces what it shows. */
  lemma {:induction false} ReadUpdate(rows: seq<RollupRow>, i: nat, r: RollupRow, b: Bucket)
    requires i < |rows|
    ensures Plus(Read(rows[i := r], b), Cell(rows[i], b)) == Plus(Read(rows, b), Cell(r, b))
  {
    var a, c := rows[..i], rows[i + 1..];
    assert rows == a + [rows[i]] + c;
    assert rows[i := r] == a + [r] + c;
    ReadAround(a, rows[i], c, b);
    ReadAround(a, r, c, b);
  }

  lemma {:induction false} ReadWithout(rows: seq<RollupRow>, i: nat, b: Bucket)
    requires i < |rows|
    ensures Read(rows, b) == Plus(Read(rows[..i] + rows[i + 1..], b), Cell(rows[i], b))
  {
    var a, c := rows[..i], rows[i + 1..];
    assert rows == a + [rows[i]] + c;
    ReadAround(a, rows[i], c, b);
    ReadConcat(a, c, b);
  }

  lemma {:induction false} ReadJoin(rows: seq<RollupRow>, e: Event, b: Bucket)
    ensures Read(Join(rows, e), b) == Plus(Read(rows, b), Worth(e, b))
  {
    if Counts(e) {
      var own := BucketOf(e);
      var i := Slot(rows, own);
      if i == |rows| {
        ReadSnoc(rows, RollupRow(own, Worth(e, own)), b);
      } else {
        ReadUpdate(rows, i, RollupRow(own, Plus(rows[i].totals, Worth(e, own))), b);
      }
    }
  }

  /** Reading the result of GROUP BY gives every bucket its own sum. */
  lemma {:induction false} GroupedIsSum(es: seq<Event>, b: Bucket)
    ensures Read(Grouped(es), b) == Sum(es, b)
  {
    if es != [] {
      GroupedIsSum(es[..|es| - 1], b);
      ReadJoin(Grouped(es[..|es| - 1]), es[|es| - 1], b);
    }
  }

  /** GROUP BY returns one row per bucket. */
  lemma {:induction false} GroupsAreDistinct(es: seq<Event>)
    ensures forall i, j | 0 <= i < j < |Grouped(es)| :: Grouped(es)[i].bucket != Grouped(es)[j].bucket
  {
    if es != [] {
      GroupsAreDistinct(es[..|es| - 1]);
    }
  }

  lemma {:induction false} OutsideReads(rows: seq<RollupRow>, lo: int, hi: int, b: Bucket)
    ensures Read(Outside(rows, lo, hi), b) == if lo <= b.hour < hi then ZERO else Read(rows, b)
  {
    if rows != [] {
      var n := |rows| - 1;
      var kept := Outside(rows[..n], lo, hi);
      OutsideReads(rows[..n], lo, hi, b);
      if lo <= rows[n].bucket.hour < hi {
        assert kept + [] == kept;
      } else {
        assert (kept + [rows[n]])[..|kept|] == kept;
      }
    }
  }

  // ---------------------------------------------------------------------------------------
  // Hour buckets and day bounds select the same events
  // ---------------------------------------------------------------------------------------

  lemma {:induction false} HourIsInDayIff(ts: int, lo: int, hi: int)
    requires OnTheHour(lo) && OnTheHour(hi)
    ensures lo <= HourOf(ts) < hi <==> lo <= ts < hi
  {
  }

  lemma {:induction false} SumSnoc(es: seq<Event>, e: Event, b: Bucket)
    ensures Sum(es + [e], b) == Plus(Sum(es, b), Worth(e, b))
  {
  }

  lemma {:induction false} WorthDuring(e: Event, lo: int, hi: int, b: Bucket)
    requires OnTheHour(lo) && OnTheHour(hi)
    ensures (if e.timestamp.Some? && lo <= e.timestamp.value < hi then Worth(e, b) else ZERO)
            == if lo <= b.hour < hi then Worth(e, b) else ZERO
  {
  }

  /** Restricting the events to the day loses nothing of its buckets and adds nothing to others. */
  lemma {:induction false} DuringSums(es: seq<Event>, lo: int, hi: int, b: Bucket)
    requires OnTheHour(lo) && OnTheHour(hi)
    ensures Sum(During(es, lo, hi), b) == if lo <= b.hour < hi then Sum(es, b) else ZERO
  {
    if es != [] {
      var n := |es| - 1;
      DuringSums(es[..n], lo, hi, b);
      WorthDuring(es[n], lo, hi, b);
      DuringSnoc(es, lo, hi, b);
    }
  }

  lemma {:induction false} DuringSnoc(es: seq<Event>, lo: int, hi: int, b: Bucket)
    requires es != []
    ensures var e := es[|es| - 1];
            Sum(During(es, lo, hi), b)
            == Plus(Sum(During(es[..|es| - 1], lo, hi), b),
                    if e.timestamp.Some? && lo <= e.timestamp.value < hi then Worth(e, b) else ZERO)
  {
    var n := |es| - 1;
    var some := During(es[..n], lo, hi);
    if es[n].timestamp.Some? && lo <= es[n].timestamp.value < hi {
      SumSnoc(some, es[n], b);
    } else {
      assert some + [] == some;
    }
  }

  // ---------------------------------------------------------------------------------------
  // Equal views give equal sums
  // ---------------------------------------------------------------------------------------

  /** Two duplicate-free lists of the same events. */
  predicate SameEvents(a: seq<Event>, c: seq<Event>) {
    && (forall i, j | 0 <= i < j < |a| :: a[i] != a[j])
    && (forall i, j | 0 <= i < j < |c| :: c[i] != c[j])
    && (forall e | e in a :: e in c)
    && (forall e | e in c :: e in a)
  }

  lemma {:induction false} SumConcat(a: seq<Event>, c: seq<Event>, b: Bucket)
    ensures Sum(a + c, b) == Plus(Sum(a, b), Sum(c, b))
  {
    if c == [] {
      assert a + c == a;
    } else {
      var n := |c| - 1;
      assert (a + c)[..|a + c| - 1] == a + c[..n];
      SumConcat(a, c[..n], b);
    }
  }

  lemma {:induction false} SumAround(a: seq<Event>, e: Event, c: seq<Event>, b: Bucket)
    ensures Sum(a + [e] + c, b) == Plus(Plus(Sum(a, b), Worth(e, b)), Sum(c, b))
  {
    SumConcat(a + [e], c, b);
    SumSnoc(a, e, b);
  }

  lemma {:induction false} SumWithout(es: seq<Event>, i: nat, b: Bucket)
    requires i < |es|
    ensures Sum(es, b) == Plus(Sum(es[..i] + es[i + 1..], b), Worth(es[i], b))
  {
    assert es == es[..i] + [es[i]] + es[i + 1..];
    SumAround(es[..i], es[i], es[i + 1..], b);
    SumConcat(es[..i], es[i + 1..], b);
  }

  lemma {:induction false} WithoutIsSame(a: seq<Event>, c: seq<Event>, i: nat)
    requires SameEvents(a, c) && a != [] && i < |c| && c[i] == a[|a| - 1]
    ensures SameEvents(a[..|a| - 1], c[..i] + c[i + 1..])
  {
    var n, d := |a| - 1, c[..i] + c[i + 1..];
    assert forall k | 0 <= k < |d| :: d[k] == c[if k < i then k else k + 1];
    forall e | e in a[..n]
      ensures e in d
    {
      var k :| 0 <= k < n && a[k] == e;
      assert a[k] in c;
      var j :| 0 <= j < |c| && c[j] == e;
      assert d[if j < i then j else j - 1] == e;
    }
    forall e | e in d
      ensures e in a[..n]
    {
      var k :| 0 <= k < |d| && d[k] == e;
      assert e in c && e != c[i];
      var j :| 0 <= j < |a| && a[j] == e;
    }
  }

  /** The order of the rows does not matter to a sum. */
  lemma {:induction false} SameSums(a: seq<Event>, c: seq<Event>, b: Bucket)
    requires SameEvents(a, c)
    ensures Sum(a, b) == Sum(c, b)
  {
    var first := if c == [] then None else Some(c[0]);
    assert first.Some? ==> first.value in c;
    if a == [] {
      assert c == [];
    } else {
      assert a[|a| - 1] in a;
      var i :| 0 <= i < |c| && c[i] == a[|a| - 1];
      WithoutIsSame(a, c, i);
      SameSums(a[..|a| - 1], c[..i] + c[i + 1..], b);
      SumWithout(c, i, b);
    }
  }

  /** Revenue over FINAL. */
  function Exact(rows: seq<CleanRow>, b: Bucket): Totals {
    Sum(EventsOf(FinalRows(rows)), b)
  }

  lemma {:induction false} SameViewSameEvents(a: seq<CleanRow>, c: seq<CleanRow>, m: map<SortKey, CleanRow>)
    requires Enumerates(a, m) && Enumerates(c, m)
    ensures SameEvents(EventsOf(a), EventsOf(c))
  {
    OneWay(a, c, m);
    OneWay(c, a, m);
  }

  lemma {:induction false} OneWay(a: seq<CleanRow>, c: seq<CleanRow>, m: map<SortKey, CleanRow>)
    requires Enumerates(a, m) && Enumerates(c, m)
    ensures forall e | e in EventsOf(a) :: e in EventsOf(c)
    ensures var es := EventsOf(a); forall i, j | 0 <= i < j < |es| :: es[i] != es[j]
  {
    forall e | e in EventsOf(a)
      ensures e in EventsOf(c)
    {
      var i :| 0 <= i < |a| && a[i].event == e;
      assert a[i] in a;
      assert m[Key(a[i])] in c;
      var j :| 0 <= j < |c| && c[j] == a[i];
      assert EventsOf(c)[j] == e;
    }
    forall i, j | 0 <= i < j < |a|
      ensures a[i].event != a[j].event
    {
      assert Key(a[i]) != Key(a[j]);
    }
  }

  /** Tables with one FINAL view have one exact revenue, however far their merges have got. */
  lemma {:induction false} ExactIsAView(a: seq<CleanRow>, c: seq<CleanRow>, b: Bucket)
    requires Final(a) == Final(c)
    ensures Exact(a, b) == Exact(c, b)
  {
    FinalRowsEnumerate(a);
    FinalRowsEnumerate(c);
    SameViewSameEvents(FinalRows(a), FinalRows(c), Final(a));
    SameSums(EventsOf(FinalRows(a)), EventsOf(FinalRows(c)), b);
  }

  // ---------------------------------------------------------------------------------------
  // The streaming rollup against FINAL
  // ---------------------------------------------------------------------------------------

  lemma {:induction false} EventsOfSnoc(rows: seq<CleanRow>, r: CleanRow)
    ensures EventsOf(rows + [r]) == EventsOf(rows) + [r.event]
  {
  }

  /** Replacing one row moves its worth from the old bucket to the new. */
  lemma {:induction false} SumUpdate(es: seq<Event>, i: nat, e: Event, b: Bucket)
    requires i < |es|
    ensures Plus(Sum(es[i := e], b), Worth(es[i], b)) == Plus(Sum(es, b), Worth(e, b))
  {
    var a, c := es[..i], es[i + 1..];
    assert es == a + [es[i]] + c;
    assert es[i := e] == a + [e] + c;
    SumAround(a, es[i], c, b);
    SumAround(a, e, c, b);
  }

  lemma {:induction false} UpsertAddsAtMost(rows: seq<CleanRow>, r: CleanRow, b: Bucket)
    requires Billable(r.event) && Payable(rows)
    ensures AtMost(Sum(EventsOf(Upsert(rows, r)), b), Plus(Sum(EventsOf(rows), b), Worth(r.event, b)))
  {
    var i := Find(rows, Key(r));
    if i == |rows| {
      EventsOfSnoc(rows, r);
      SumSnoc(EventsOf(rows), r.event, b);
    } else if rows[i].ingestedAt <= r.ingestedAt {
      assert EventsOf(rows[i := r]) == EventsOf(rows)[i := r.event];
      SumUpdate(EventsOf(rows), i, r.event, b);
    }
  }

  lemma {:induction false} FinalRowsAreRows(rows: seq<CleanRow>)
    ensures forall r | r in FinalRows(rows) :: r in rows
  {
    FinalRowsEnumerate(rows);
    FinalDominates(rows);
    forall r | r in FinalRows(rows)
      ensures r in rows
    {
      assert Final(rows)[Key(r)] == r;
    }
  }

  lemma {:induction false} FinalIsPayable(rows: seq<CleanRow>)
    requires Payable(rows)
    ensures Payable(FinalRows(rows))
  {
    FinalRowsAreRows(rows);
    forall i | 0 <= i < |FinalRows(rows)|
      ensures Billable(FinalRows(rows)[i].event)
    {
      assert FinalRows(rows)[i] in FinalRows(rows);
    }
  }

  /** Inserting a block raises the exact revenue by no more than the block's own sum. */
  lemma {:induction false} BlockAddsAtMost(rows: seq<CleanRow>, block: seq<CleanRow>, b: Bucket)
    requires Payable(rows) && Payable(block)
    ensures AtMost(Exact(rows + block, b), Plus(Exact(rows, b), Sum(EventsOf(block), b)))
  {
    if block == [] {
      assert rows + block == rows;
    } else {
      var n := |block| - 1;
      var before := rows + block[..n];
      assert rows + block == before + [block[n]];
      BlockAddsAtMost(rows, block[..n], b);
      RowAddsAtMost(before, block[n], b);
      assert block == block[..n] + [block[n]];
      EventsOfSnoc(block[..n], block[n]);
      SumSnoc(EventsOf(block[..n]), block[n].event, b);
    }
  }

  lemma {:induction false} RowAddsAtMost(rows: seq<CleanRow>, r: CleanRow, b: Bucket)
    requires Billable(r.event) && Payable(rows)
    ensures AtMost(Exact(rows + [r], b), Plus(Exact(rows, b), Worth(r.event, b)))
  {
    assert (rows + [r])[..|rows|] == rows;
    FinalIsPayable(rows);
    UpsertAddsAtMost(FinalRows(rows), r, b);
  }

  /** Some stop of the bucket has been superseded. */
  predicate Repeated(rows: seq<CleanRow>, b: Bucket) {
    exists i :: 0 <= i < |rows| && FallsIn(rows[i].event, b) && Superseded(rows, i)
  }

  lemma {:induction false} DropOne(rows: seq<CleanRow>, i: nat, b: Bucket)
    requires i < |rows| && Superseded(rows, i)
    ensures var less := rows[..i] + rows[i + 1..];
            && Exact(less, b) == Exact(rows, b)
            && Sum(EventsOf(rows), b) == Plus(Sum(EventsOf(less), b), Worth(rows[i].event, b))
  {
    var less := rows[..i] + rows[i + 1..];
    MergeKeepsFinal(rows, i);
    ExactIsAView(less, rows, b);
    SumWithout(EventsOf(rows), i, b);
    assert EventsOf(less) == EventsOf(rows)[..i] + EventsOf(rows)[i + 1..];
  }

  lemma {:induction false} DropRepeatsNothing(rows: seq<CleanRow>, i: nat, b: Bucket)
    requires i < |rows| && Repeated(rows[..i] + rows[i + 1..], b)
    ensures Repeated(rows, b)
  {
  }

  lemma {:induction false} NothingSuperseded(rows: seq<CleanRow>)
    requires forall i | 0 <= i < |rows| :: !Superseded(rows, i)
    ensures FinalRows(rows) == rows
  {
    forall i, j | 0 <= i < j < |rows|
      ensures Key(rows[i]) != Key(rows[j])
    {
      assert !Superseded(rows, i) && !Superseded(rows, j);
    }
    DistinctKeysSurvive(rows);
  }

  lemma {:induction false} NewKeyIsAppended(rows: seq<CleanRow>, r: CleanRow)
    requires forall i | 0 <= i < |rows| :: Key(rows[i]) != Key(r)
    ensures Upsert(rows, r) == rows + [r]
  {
  }

  lemma {:induction false} DistinctKeysSurvive(rows: seq<CleanRow>)
    requires forall i, j | 0 <= i < j < |rows| :: Key(rows[i]) != Key(rows[j])
    ensures FinalRows(rows) == rows
  {
    if rows != [] {
      var n := |rows| - 1;
      DistinctKeysSurvive(rows[..n]);
      NewKeyIsAppended(rows[..n], rows[n]);
      assert rows == rows[..n] + [rows[n]];
    }
  }

  /**
    The streaming count of a bucket is never below the exact one, and the two agree exactly when
    no stop of the bucket was superseded; then the revenue agrees as well.
   */
  lemma {:induction false} StreamIsExactIff(rows: seq<CleanRow>, b: Bucket)
    ensures Exact(rows, b).sessions <= Sum(EventsOf(rows), b).sessions
    ensures Sum(EventsOf(rows), b).sessions == Exact(rows, b).sessions <==> !Repeated(rows, b)
    ensures !Repeated(rows, b) ==> Sum(EventsOf(rows), b) == Exact(rows, b)
    decreases |rows|
  {
    if Repeated(rows, b) {
      var i :| 0 <= i < |rows| && FallsIn(rows[i].event, b) && Superseded(rows, i);
      DropOne(rows, i, b);
      StreamIsExactIff(rows[..i] + rows[i + 1..], b);
    } else if i :| 0 <= i < |rows| && Superseded(rows, i) {
      DropOne(rows, i, b);
      if Repeated(rows[..i] + rows[i + 1..], b) {
        DropRepeatsNothing(rows, i, b);
      }
      StreamIsExactIff(rows[..i] + rows[i + 1..], b);
    } else {
      NothingSuperseded(rows);
    }
  }

  // ---------------------------------------------------------------------------------------
  // Reconciliation
  // ---------------------------------------------------------------------------------------

  /** max(timestamp), nothing for an empty table. */
  function Latest(rows: seq<CleanRow>): Option<int> {
    if rows == [] then None
    else
      var n := |rows| - 1;
      var before := Latest(rows[..n]);
      match rows[n].event.timestamp
      case None => before
      case Some(t) => if before.None? || before.value < t then Some(t) else before
  }

  /** The number of the day before the newest event's day. */
  function Yesterday(rows: seq<CleanRow>): Option<int> {
    match Latest(rows)
    case None => None
    case Some(t) => Some(t / 86_400_000 - 1)
  }

  /** Day `d` ends where the newest event's day, counted from the epoch, begins. */
  lemma {:induction false} YesterdayIs(rows: seq<CleanRow>, d: int)
    ensures Yesterday(rows) == Some(d) <==>
              && Latest(rows).Some?
              && 86_400_000 * (d + 1) <= Latest(rows).value < 86_400_000 * (d + 2)
    ensures Yesterday(rows).None? <==> forall r | r in rows :: r.event.timestamp.None?
  {
    LatestIsMaximum(rows);
  }

  function DayStart(d: int): int {
    d * 86_400_000
  }

  predicate InDay(b: Bucket, d: int) {
    DayStart(d) <= b.hour < DayStart(d + 1)
  }

  lemma {:induction false} LatestIsMaximum(rows: seq<CleanRow>)
    ensures Latest(rows).Some? ==> exists r | r in rows :: r.event.timestamp == Latest(rows)
    ensures forall r | r in rows && r.event.timestamp.Some? ::
              Latest(rows).Some? && r.event.timestamp.value <= Latest(rows).value
  {
    if rows != [] {
      var n := |rows| - 1;
      LatestIsMaximum(rows[..n]);
      assert forall r | r in rows :: r in rows[..n] || r == rows[n];
      assert forall r | r in rows[..n] :: r in rows;
      assert rows[n] in rows;
    }
  }

  /** The day chosen depends on the FINAL view only. */
  lemma {:induction false} DayIsAView(a: seq<CleanRow>, c: seq<CleanRow>)
    requires Final(a) == Final(c)
    ensures Yesterday(a) == Yesterday(c)
  {
    NotLater(a, c);
    NotLater(c, a);
  }

  lemma {:induction false} NotLater(a: seq<CleanRow>, c: seq<CleanRow>)
    requires Final(a) == Final(c)
    ensures Latest(a).Some? ==> Latest(c).Some? && Latest(a).value <= Latest(c).value
  {
    LatestIsMaximum(a);
    LatestIsMaximum(c);
    FinalDominates(a);
    FinalDominates(c);
    if Latest(a).Some? {
      var r :| r in a && r.event.timestamp == Latest(a);
      var x := Final(c)[Key(r)];
      assert x in c && Key(x) == Key(r);
    }
  }

  /** First command of the job: the day's rows go. */
  function Deleted(rollup: seq<RollupRow>, d: int): seq<RollupRow> {
    Outside(rollup, DayStart(d), DayStart(d + 1))
  }

  /** Second command: the day's sums over FINAL. */
  function DayGroups(rows: seq<CleanRow>, d: int): seq<RollupRow> {
    Grouped(During(EventsOf(FinalRows(rows)), DayStart(d), DayStart(d + 1)))
  }

  /** The rollup after both commands with nothing in between. */
  function Reconciled(rows: seq<CleanRow>, rollup: seq<RollupRow>): seq<RollupRow> {
    match Yesterday(rows)
    case None => rollup
    case Some(d) => Deleted(rollup, d) + DayGroups(rows, d)
  }

  lemma {:induction false} DayStartsAnHour(d: int)
    ensures OnTheHour(DayStart(d))
  {
    assert d * 86_400_000 == Hours(24 * d);
  }

  lemma {:induction false} DayGroupsRead(rows: seq<CleanRow>, d: int, b: Bucket)
    ensures Read(DayGroups(rows, d), b) == if InDay(b, d) then Exact(rows, b) else ZERO
  {
    var es := EventsOf(FinalRows(rows));
    DayStartsAnHour(d);
    DayStartsAnHour(d + 1);
    GroupedIsSum(During(es, DayStart(d), DayStart(d + 1)), b);
    DuringSums(es, DayStart(d), DayStart(d + 1), b);
  }

  lemma {:induction false} DeletedReads(rollup: seq<RollupRow>, d: int, b: Bucket)
    ensures Read(Deleted(rollup, d), b) == if InDay(b, d) then ZERO else Read(rollup, b)
  {
    OutsideReads(rollup, DayStart(d), DayStart(d + 1), b);
  }

  lemma {:induction false} RecomputeReads(rollup: seq<RollupRow>, rows: seq<CleanRow>, d: int, b: Bucket)
    ensures Read(rollup + DayGroups(rows, d), b)
            == if InDay(b, d) then Plus(Read(rollup, b), Exact(rows, b)) else Read(rollup, b)
  {
    DayGroupsRead(rows, d, b);
    ReadConcat(rollup, DayGroups(rows, d), b);
  }

  /** The materialized view adds the block's own sums. */
  lemma {:induction false} StreamReads(rollup: seq<RollupRow>, block: seq<CleanRow>, b: Bucket)
    ensures Read(rollup + Grouped(EventsOf(block)), b) == Plus(Read(rollup, b), Sum(EventsOf(block), b))
  {
    GroupedIsSum(EventsOf(block), b);
    ReadConcat(rollup, Grouped(EventsOf(block)), b);
  }

  /** The day becomes exact; every other bucket keeps what it had. */
  lemma {:induction false} ReconcileIsExact(rows: seq<CleanRow>, rollup: seq<RollupRow>, b: Bucket)
    ensures Read(Reconciled(rows, rollup), b)
            == if Yesterday(rows).Some? && InDay(b, Yesterday(rows).value) then Exact(rows, b) else Read(rollup, b)
  {
    if Yesterday(rows).Some? {
      var d := Yesterday(rows).value;
      DeletedReads(rollup, d, b);
      DayGroupsRead(rows, d, b);
      ReadConcat(Deleted(rollup, d), DayGroups(rows, d), b);
    }
  }

  lemma {:induction false} OutsideConcat(a: seq<RollupRow>, c: seq<RollupRow>, lo: int, hi: int)
    ensures Outside(a + c, lo, hi) == Outside(a, lo, hi) + Outside(c, lo, hi)
  {
    if c == [] {
      assert a + c == a;
    } else {
      var n := |c| - 1;
      assert (a + c)[..|a + c| - 1] == a + c[..n];
      OutsideConcat(a, c[..n], lo, hi);
    }
  }

  lemma {:induction false} OutsideTwice(rows: seq<RollupRow>, lo: int, hi: int)
    ensures Outside(Outside(rows, lo, hi), lo, hi) == Outside(rows, lo, hi)
  {
    if rows != [] {
      var n := |rows| - 1;
      OutsideTwice(rows[..n], lo, hi);
      OutsideConcat(Outside(rows[..n], lo, hi), if lo <= rows[n].bucket.hour < hi then [] else [rows[n]], lo, hi);
      assert [rows[n]][..0] == [];
    }
  }

  lemma {:induction false} NoneOutside(rows: seq<RollupRow>, lo: int, hi: int)
    requires forall r | r in rows :: lo <= r.bucket.hour < hi
    ensures Outside(rows, lo, hi) == []
  {
    if rows != [] {
      NoneOutside(rows[..|rows| - 1], lo, hi);
    }
  }

  lemma {:induction false} GroupsOfTheDay(es: seq<Event>, lo: int, hi: int)
    requires OnTheHour(lo) && OnTheHour(hi)
    ensures forall r | r in Grouped(During(es, lo, hi)) :: lo <= r.bucket.hour < hi
  {
    if es != [] {
      var n := |es| - 1;
      GroupsOfTheDay(es[..n], lo, hi);
      var some := During(es[..n], lo, hi);
      if es[n].timestamp.Some? && lo <= es[n].timestamp.value < hi {
        HourIsInDayIff(es[n].timestamp.value, lo, hi);
        assert (some + [es[n]])[..|some|] == some;
        assert Grouped(some + [es[n]]) == Join(Grouped(some), es[n]);
        JoinKeepsHours(Grouped(some), es[n], lo, hi);
      } else {
        assert During(es, lo, hi) == some;
      }
    }
  }

  lemma {:induction false} JoinKeepsHours(rows: seq<RollupRow>, e: Event, lo: int, hi: int)
    requires forall r | r in rows :: lo <= r.bucket.hour < hi
    requires Counts(e) ==> lo <= BucketOf(e).hour < hi
    ensures forall r | r in Join(rows, e) :: lo <= r.bucket.hour < hi
  {
  }

  /** A second reconciliation changes no row at all. */
  lemma {:induction false} ReconcileIsIdempotent(rows: seq<CleanRow>, rollup: seq<RollupRow>)
    ensures Reconciled(rows, Reconciled(rows, rollup)) == Reconciled(rows, rollup)
  {
    if Yesterday(rows).Some? {
      DeleteUndoesRecompute(rows, rollup, Yesterday(rows).value);
    }
  }

  lemma {:induction false} DeleteUndoesRecompute(rows: seq<CleanRow>, rollup: seq<RollupRow>, d: int)
    ensures Deleted(Deleted(rollup, d) + DayGroups(rows, d), d) == Deleted(rollup, d)
  {
    var lo, hi := DayStart(d), DayStart(d + 1);
    DayStartsAnHour(d);
    DayStartsAnHour(d + 1);
    GroupsOfTheDay(EventsOf(FinalRows(rows)), lo, hi);
    NoneOutside(DayGroups(rows, d), lo, hi);
    OutsideTwice(rollup, lo, hi);
    OutsideConcat(Deleted(rollup, d), DayGroups(rows, d), lo, hi);
    assert Deleted(rollup, d) + [] == Deleted(rollup, d);
  }

  /** The warehouse as its jobs change it. */
  class Warehouse {
    var table: Table
    var rollup: seq<RollupRow>

    /** One insert block: the landing table grows and the materialized view fires on the block. */
    method InsertBlock(block: seq<CleanRow>)
      modifies this
      ensures table == TableNext(old(table), Insert(block))
      ensures rollup == old(rollup) + Grouped(EventsOf(block))
      ensures forall b :: Read(rollup, b) == Plus(Read(old(rollup), b), Sum(EventsOf(block), b))
    {
      ghost var before := rollup;
      table := TableNext(table, Insert(block));
      rollup := rollup + Grouped(EventsOf(block));
      forall b
        ensures Read(rollup, b) == Plus(Read(before, b), Sum(EventsOf(block), b))
      {
        StreamReads(before, block, b);
      }
    }

    method DeleteDay(d: int)
      modifies this`rollup
      ensures rollup == Deleted(old(rollup), d)
      ensures forall b :: Read(rollup, b) == if InDay(b, d) then ZERO else Read(old(rollup), b)
    {
      ghost var before := rollup;
      rollup := Deleted(rollup, d);
      forall b
        ensures Read(rollup, b) == if InDay(b, d) then ZERO else Read(before, b)
      {
        DeletedReads(before, d, b);
      }
    }

    method RecomputeDay(d: int)
      modifies this`rollup
      ensures rollup == old(rollup) + DayGroups(table.rows, d)
      ensures forall b :: Read(rollup, b) == if InDay(b, d) then Plus(Read(old(rollup), b), Exact(table.rows,
          b)) else Read(old(rollup), b)
    {
      ghost var before := rollup;
      rollup := rollup + DayGroups(table.rows, d);
      forall b
        ensures Read(rollup, b) == if InDay(b, d) then Plus(Read(before, b), Exact(table.rows, b)) else Read(before, b)
      {
        RecomputeReads(before, table.rows, d, b);
      }
    }

    /**
      reconcile_revenue: the day it set out to rewrite, or nothing when there are no events. When
      the second command fails, the day is left empty.
     */
    method Reconcile(recomputeOk: bool) returns (day: Option<int>, err: bool)
      modifies this`rollup
      ensures day == Yesterday(table.rows)
      ensures err <==> day.Some? && !recomputeOk
      ensures !err ==> rollup == Reconciled(table.rows, old(rollup))
      ensures forall b | day.Some? && InDay(b, day.value) :: Read(rollup, b) == if err then ZERO
          else Exact(table.rows, b)
      ensures forall b | day.None? || !InDay(b, day.value) :: Read(rollup, b) == Read(old(rollup), b)
    {
      day, err := Yesterday(table.rows), false;
      if day.None? {
        return;
      }
      DeleteDay(day.value);
      if !recomputeOk {
        err := true;
        return;
      }
      RecomputeDay(day.value);
    }
  }

  // ---------------------------------------------------------------------------------------
  // Every run of inserts, background merges and reconciliation commands
  // ---------------------------------------------------------------------------------------

  datatype Op = Land(step: TableStep) | SumPair(i: nat, j: nat) | DeleteDay(d: int) | RecomputeDay(d: int)

  datatype Tables = Tables(table: Table, rollup: seq<RollupRow>)

  const EMPTY_TABLES := Tables(EMPTY_TABLE, [])

  function Apply(t: Tables, op: Op): Tables {
    match op
    case Land(step) =>
      Tables(TableNext(t.table, step), if step.Insert? then t.rollup + Grouped(EventsOf(step.block)) else t.rollup)
    case SumPair(i, j) =>
      if i < j < |t.rollup| && t.rollup[i].bucket == t.rollup[j].bucket
          then t.(rollup := Collapse(t.rollup, i, j)) else t
    case DeleteDay(d) => t.(rollup := Deleted(t.rollup, d))
    case RecomputeDay(d) => t.(rollup := t.rollup + DayGroups(t.table.rows, d))
  }

  /** A background merge of the summing table: row `j` is added into row `i`. */
  function Collapse(rows: seq<RollupRow>, i: nat, j: nat): seq<RollupRow>
    requires i < j < |rows|
  {
    var summed := rows[i := RollupRow(rows[i].bucket, Plus(rows[i].totals, rows[j].totals))];
    summed[..j] + summed[j + 1..]
  }

  function Perform(t: Tables, ops: seq<Op>): Tables {
    if ops == [] then t else Apply(Perform(t, ops[..|ops| - 1]), ops[|ops| - 1])
  }

  lemma {:induction false} PerformSnoc(t: Tables, ops: seq<Op>, op: Op)
    ensures Perform(t, ops + [op]) == Apply(Perform(t, ops), op)
  {
    assert (ops + [op])[..|ops|] == ops;
  }

  lemma {:induction false} PerformConcat(t: Tables, a: seq<Op>, c: seq<Op>)
    ensures Perform(t, a + c) == Perform(Perform(t, a), c)
  {
    if c == [] {
      assert a + c == a;
    } else {
      var n := |c| - 1;
      assert (a + c)[..|a + c| - 1] == a + c[..n];
      PerformConcat(t, a, c[..n]);
    }
  }

  lemma {:induction false} CollapseReads(rows: seq<RollupRow>, i: nat, j: nat, b: Bucket)
    requires i < j < |rows| && rows[i].bucket == rows[j].bucket
    ensures Read(Collapse(rows, i, j), b) == Read(rows, b)
  {
    var sum := RollupRow(rows[i].bucket, Plus(rows[i].totals, rows[j].totals));
    ReadUpdate(rows, i, sum, b);
    ReadWithout(rows[i := sum], j, b);
  }

  /** What one operation adds to what a reader of the bucket sees. */
  function Streamed(op: Op, b: Bucket): Totals {
    if op.Land? && op.step.Insert? then Sum(EventsOf(op.step.block), b) else ZERO
  }

  /**
    A reader's view of one operation, given what the bucket showed and what FINAL holds for it:
    inserts add, the two commands reset and add, merges are invisible.
   */
  function Shown(before: Totals, exact: Totals, op: Op, b: Bucket): Totals {
    match op
    case Land(step) => Plus(before, Streamed(op, b))
    case SumPair(_, _) => before
    case DeleteDay(d) => if InDay(b, d) then ZERO else before
    case RecomputeDay(d) => if InDay(b, d) then Plus(before, exact) else before
  }

  lemma {:induction false} ApplyReads(t: Tables, op: Op, b: Bucket)
    ensures Read(Apply(t, op).rollup, b) == Shown(Read(t.rollup, b), Exact(t.table.rows, b), op, b)
  {
    match op
    case Land(step) => LandReads(t, step, b);
    case SumPair(i, j) =>
      if i < j < |t.rollup| && t.rollup[i].bucket == t.rollup[j].bucket {
        CollapseReads(t.rollup, i, j, b);
      }
    case DeleteDay(d) => DeletedReads(t.rollup, d, b);
    case RecomputeDay(d) => RecomputeReads(t.rollup, t.table.rows, d, b);
  }

  lemma {:induction false} LandReads(t: Tables, step: TableStep, b: Bucket)
    ensures Read(Apply(t, Land(step)).rollup, b) == Plus(Read(t.rollup, b), Streamed(Land(step), b))
  {
    if step.Insert? {
      StreamReads(t.rollup, step.block, b);
    }
  }

  /** The landing table of every run is one that merges have left alone as far as FINAL can see. */
  lemma {:induction false} PerformKeepsMerged(ops: seq<Op>)
    ensures Merged(Perform(EMPTY_TABLES, ops).table)
  {
    if ops != [] {
      var n := |ops| - 1;
      PerformKeepsMerged(ops[..n]);
      if ops[n].Land? {
        StepKeepsMerged(Perform(EMPTY_TABLES, ops[..n]).table, ops[n].step);
      }
    }
  }

  /** The days whose rows were deleted and not recomputed since. */
  function Awaiting(ops: seq<Op>): set<int> {
    if ops == [] then {}
    else
      var rest, op := Awaiting(ops[..|ops| - 1]), ops[|ops| - 1];
      if op.DeleteDay? then rest + {op.d} else if op.RecomputeDay? then rest - {op.d} else rest
  }

  predicate Settled(ops: seq<Op>, b: Bucket) {
    forall d | d in Awaiting(ops) :: !InDay(b, d)
  }

  predicate AllPayable(ops: seq<Op>) {
    forall i | 0 <= i < |ops| && ops[i].Land? && ops[i].step.Insert? :: Payable(ops[i].step.block)
  }

  /**
    Outside the days between their two commands, the rollup never understates a bucket, whatever
    was merged, re-sent, deleted and recomputed before.
   */
  lemma {:induction false} NeverUnderstated(ops: seq<Op>, b: Bucket)
    requires AllPayable(ops) && Settled(ops, b)
    ensures AtMost(Exact(Perform(EMPTY_TABLES, ops).table.rows, b), Read(Perform(EMPTY_TABLES, ops).rollup, b))
  {
    if ops != [] {
      var n := |ops| - 1;
      var t := Perform(EMPTY_TABLES, ops[..n]);
      RunIsPayable(ops[..n], b);
      if ops[n].RecomputeDay? && InDay(b, ops[n].d) {
        RecomputeRestores(t, ops[n].d, b);
      } else {
        StaysSettled(ops, b);
        NeverUnderstated(ops[..n], b);
        OpKeepsBound(t, ops[n], b);
      }
    }
  }

  lemma {:induction false} StaysSettled(ops: seq<Op>, b: Bucket)
    requires ops != [] && Settled(ops, b) && !(ops[|ops| - 1].RecomputeDay? && InDay(b, ops[|ops| - 1].d))
    ensures Settled(ops[..|ops| - 1], b) && !(ops[|ops| - 1].DeleteDay? && InDay(b, ops[|ops| - 1].d))
  {
  }

  lemma {:induction false} RunIsPayable(ops: seq<Op>, b: Bucket)
    requires AllPayable(ops)
    ensures Payable(Perform(EMPTY_TABLES, ops).table.rows) && AtMost(ZERO, Read(Perform(EMPTY_TABLES, ops).rollup, b))
  {
    if ops != [] {
      var n := |ops| - 1;
      RunIsPayable(ops[..n], b);
      StepIsPayable(Perform(EMPTY_TABLES, ops[..n]), ops[n], b);
    }
  }

  lemma {:induction false} StepIsPayable(t: Tables, op: Op, b: Bucket)
    requires Payable(t.table.rows) && AtMost(ZERO, Read(t.rollup, b))
    requires op.Land? && op.step.Insert? ==> Payable(op.step.block)
    ensures Payable(Apply(t, op).table.rows) && AtMost(ZERO, Read(Apply(t, op).rollup, b))
  {
    ApplyReads(t, op, b);
    ExactIsNotNegative(t.table.rows, b);
    StreamIsPayable(op, b);
    ShownIsNotNegative(Read(t.rollup, b), Exact(t.table.rows, b), op, b);
    RowsStayPayable(t.table, op);
  }

  lemma {:induction false} StreamIsPayable(op: Op, b: Bucket)
    requires op.Land? && op.step.Insert? ==> Payable(op.step.block)
    ensures AtMost(ZERO, Streamed(op, b))
  {
    if op.Land? && op.step.Insert? {
      BlockIsNotNegative(op.step.block, b);
    }
  }

  lemma {:induction false} ShownIsNotNegative(before: Totals, exact: Totals, op: Op, b: Bucket)
    requires AtMost(ZERO, before) && AtMost(ZERO, exact) && AtMost(ZERO, Streamed(op, b))
    ensures AtMost(ZERO, Shown(before, exact, op, b))
  {
  }

  lemma {:induction false} RowsStayPayable(table: Table, op: Op)
    requires Payable(table.rows) && (op.Land? && op.step.Insert? ==> Payable(op.step.block))
    ensures op.Land? ==> Payable(TableNext(table, op.step).rows)
  {
  }

  /** The second command covers the day again, whatever was there. */
  lemma {:induction false} RecomputeRestores(t: Tables, d: int, b: Bucket)
    requires InDay(b, d) && AtMost(ZERO, Read(t.rollup, b))
    ensures AtMost(Exact(t.table.rows, b), Read(Apply(t, RecomputeDay(d)).rollup, b))
  {
    ApplyReads(t, RecomputeDay(d), b);
  }

  lemma {:induction false} OpKeepsBound(t: Tables, op: Op, b: Bucket)
    requires Payable(t.table.rows) && (op.Land? && op.step.Insert? ==> Payable(op.step.block))
    requires !((op.DeleteDay? || op.RecomputeDay?) && InDay(b, op.d))
    requires AtMost(Exact(t.table.rows, b), Read(t.rollup, b))
    ensures AtMost(Exact(Apply(t, op).table.rows, b), Read(Apply(t, op).rollup, b))
  {
    ApplyReads(t, op, b);
    if op.Land? {
      LandAddsAtMost(t.table, op.step, b);
      AddKeepsBound(Exact(t.table.rows, b), Read(t.rollup, b), Streamed(op, b));
    }
  }

  lemma {:induction false} AddKeepsBound(x: Totals, y: Totals, z: Totals)
    requires AtMost(x, y)
    ensures AtMost(Plus(x, z), Plus(y, z))
  {
  }

  /** FINAL gains at most what the step streams. */
  lemma {:induction false} LandAddsAtMost(table: Table, step: TableStep, b: Bucket)
    requires Payable(table.rows) && (step.Insert? ==> Payable(step.block))
    ensures AtMost(Exact(TableNext(table, step).rows, b), Plus(Exact(table.rows, b), Streamed(Land(step), b)))
  {
    match step
    case Insert(block) => BlockAddsAtMost(table.rows, block, b);
    case MergeAway(i) =>
      MergeAddsNothing(table, i, b);
      NothingAdded(Exact(table.rows, b));
  }

  lemma {:induction false} MergeAddsNothing(table: Table, i: nat, b: Bucket)
    ensures Exact(TableNext(table, MergeAway(i)).rows, b) == Exact(table.rows, b)
  {
    if i < |table.rows| && Superseded(table.rows, i) {
      DropOne(table.rows, i, b);
    }
  }

  lemma {:induction false} NoSessionsNoRevenue(es: seq<Event>, b: Bucket)
    ensures 0 <= Sum(es, b).sessions && (Sum(es, b).sessions == 0 ==> Sum(es, b) == ZERO)
  {
    if es != [] {
      NoSessionsNoRevenue(es[..|es| - 1], b);
    }
  }

  lemma {:induction false} BlockIsNotNegative(rows: seq<CleanRow>, b: Bucket)
    requires Payable(rows)
    ensures AtMost(ZERO, Sum(EventsOf(rows), b))
  {
    if rows != [] {
      var n := |rows| - 1;
      BlockIsNotNegative(rows[..n], b);
      assert EventsOf(rows)[..n] == EventsOf(rows[..n]);
    }
  }

  lemma {:induction false} ExactIsNotNegative(rows: seq<CleanRow>, b: Bucket)
    requires Payable(rows)
    ensures AtMost(ZERO, Exact(rows, b))
  {
    FinalIsPayable(rows);
    BlockIsNotNegative(FinalRows(rows), b);
  }

  // ---------------------------------------------------------------------------------------
  // Between the two commands
  // ---------------------------------------------------------------------------------------

  /** Neither command of day `d` occurs. */
  predicate LeavesDay(ops: seq<Op>, d: int) {
    forall op | op in ops :: !(op.DeleteDay? && op.d == d) && !(op.RecomputeDay? && op.d == d)
  }

  /** What the inserts of a run stream into a bucket. */
  function StreamedBy(ops: seq<Op>, b: Bucket): Totals {
    if ops == [] then ZERO else Plus(StreamedBy(ops[..|ops| - 1], b), Streamed(ops[|ops| - 1], b))
  }

  lemma {:induction false} OneDayOnly(b: Bucket, d: int, e: int)
    requires InDay(b, d) && InDay(b, e)
    ensures d == e
  {
  }

  /** After the delete a bucket of the day shows exactly what has been streamed into it since. */
  lemma {:induction false} DeletedDayShowsStream(t: Tables, d: int, ops: seq<Op>, b: Bucket)
    requires InDay(b, d) && LeavesDay(ops, d)
    ensures Read(Perform(Apply(t, DeleteDay(d)), ops).rollup, b) == StreamedBy(ops, b)
  {
    if ops == [] {
      ApplyReads(t, DeleteDay(d), b);
    } else {
      var n := |ops| - 1;
      assert forall op | op in ops[..n] :: op in ops;
      assert ops[n] in ops;
      DeletedDayShowsStream(t, d, ops[..n], b);
      ApplyReads(Perform(Apply(t, DeleteDay(d)), ops[..n]), ops[n], b);
      if (ops[n].DeleteDay? || ops[n].RecomputeDay?) && InDay(b, ops[n].d) {
        OneDayOnly(b, d, ops[n].d);
      }
    }
  }

  lemma {:induction false} StreamedIsNotNegative(ops: seq<Op>, b: Bucket)
    ensures 0 <= StreamedBy(ops, b).sessions && (StreamedBy(ops, b).sessions == 0 ==> StreamedBy(ops, b) == ZERO)
  {
    if ops != [] {
      var op := ops[|ops| - 1];
      StreamedIsNotNegative(ops[..|ops| - 1], b);
      StreamedByOne(op, b);
    }
  }

  lemma {:induction false} StreamedByOne(op: Op, b: Bucket)
    ensures 0 <= Streamed(op, b).sessions && (Streamed(op, b).sessions == 0 ==> Streamed(op, b) == ZERO)
  {
    if op.Land? && op.step.Insert? {
      NoSessionsNoRevenue(EventsOf(op.step.block), b);
    }
  }

  /**
    The rollup does understate. After the delete, whatever traffic follows before the recompute,
    a bucket of the day shows what was streamed into it since; so it covers FINAL if and only if
    the stream does, and while no stop of the bucket has arrived, if and only if FINAL has none.
   */
  lemma {:induction false} DeletedDayIsRightIff(t: Tables, d: int, ops: seq<Op>, b: Bucket)
    requires InDay(b, d) && LeavesDay(ops, d)
    ensures var t' := Perform(Apply(t, DeleteDay(d)), ops);
            var exact := Exact(t'.table.rows, b);
            && Read(t'.rollup, b) == StreamedBy(ops, b)
            && (AtMost(exact, Read(t'.rollup, b)) <==> AtMost(exact, StreamedBy(ops, b)))
            && (StreamedBy(ops, b).sessions == 0 ==> (AtMost(exact, Read(t'.rollup, b)) <==> exact.sessions == 0))
  {
    DeletedDayShowsStream(t, d, ops, b);
    StreamedIsNotNegative(ops, b);
    NoSessionsNoRevenue(EventsOf(FinalRows(Perform(Apply(t, DeleteDay(d)), ops).table.rows)), b);
  }

  /** What is missing is never more than the day held when it was deleted. */
  lemma {:induction false} AtMostTheDeletedIsMissing(t: Tables, d: int, ops: seq<Op>, b: Bucket)
    requires InDay(b, d) && LeavesDay(ops, d) && Payable(t.table.rows) && AllPayable(ops)
    ensures var t' := Perform(Apply(t, DeleteDay(d)), ops);
            AtMost(Exact(t'.table.rows, b), Plus(Exact(t.table.rows, b), Read(t'.rollup, b)))
  {
    FinalGrowsByStream(Apply(t, DeleteDay(d)), ops, b);
    DeletedDayShowsStream(t, d, ops, b);
  }

  lemma {:induction false} FinalGrowsByStream(t: Tables, ops: seq<Op>, b: Bucket)
    requires Payable(t.table.rows) && AllPayable(ops)
    ensures Payable(Perform(t, ops).table.rows)
    ensures AtMost(Exact(Perform(t, ops).table.rows, b), Plus(Exact(t.table.rows, b), StreamedBy(ops, b)))
  {
    if ops != [] {
      var n := |ops| - 1;
      FinalGrowsByStream(t, ops[..n], b);
      ApplyStaysPayable(Perform(t, ops[..n]), ops[n]);
      FinalGrowsByOne(Perform(t, ops[..n]), ops[n], b);
      AddKeepsBound(Exact(Perform(t, ops[..n]).table.rows, b), Plus(Exact(t.table.rows, b), StreamedBy(ops[..n], b)),
                    Streamed(ops[n], b));
    }
  }

  lemma {:induction false} ApplyStaysPayable(t: Tables, op: Op)
    requires Payable(t.table.rows) && (op.Land? && op.step.Insert? ==> Payable(op.step.block))
    ensures Payable(Apply(t, op).table.rows)
  {
    RowsStayPayable(t.table, op);
  }

  lemma {:induction false} FinalGrowsByOne(t: Tables, op: Op, b: Bucket)
    requires Payable(t.table.rows) && (op.Land? && op.step.Insert? ==> Payable(op.step.block))
    ensures AtMost(Exact(Apply(t, op).table.rows, b), Plus(Exact(t.table.rows, b), Streamed(op, b)))
  {
    match op
    case Land(step) =>
      LandAddsAtMost(t.table, step, b);
      assert op == Land(step);
    case _ =>
      assert Streamed(op, b) == ZERO && Apply(t, op).table == t.table;
      NothingAdded(Exact(t.table.rows, b));
  }

  lemma {:induction false} NothingAdded(x: Totals)
    ensures Plus(x, ZERO) == x && AtMost(x, x)
  {
  }

  /**
    For instance when a stop of one day and an event of the next have landed, the job sets out
    for the stop's day, and its second command never comes.
   */
  lemma {:induction false} InterruptedJobUnderstates(r: CleanRow, next: CleanRow, d: int)
    requires Counts(r.event) && InDay(BucketOf(r.event), d)
    requires next.event.timestamp.Some? && DayStart(d + 1) <= next.event.timestamp.value < DayStart(d + 2)
    ensures var landed := Perform(EMPTY_TABLES, [Land(Insert([r, next]))]);
            var t := Apply(landed, DeleteDay(d));
            && Yesterday(landed.table.rows) == Some(d)
            && !AtMost(Exact(t.table.rows, BucketOf(r.event)), Read(t.rollup, BucketOf(r.event)))
  {
    var landed := Tables(Table([r, next], [r, next]), Grouped(EventsOf([r, next])));
    FirstBlock([r, next]);
    StopIsEarlier(r.event, next.event, d);
    StopAndNext(r, next);
    NewestOfTwo(r, next);
    DeletedDayIsRightIff(landed, d, [], BucketOf(r.event));
  }

  lemma {:induction false} FirstBlock(rows: seq<CleanRow>)
    ensures Perform(EMPTY_TABLES, [Land(Insert(rows))]) == Tables(Table(rows, rows), Grouped(EventsOf(rows)))
  {
    var ops := [Land(Insert(rows))];
    assert ops[..0] == [];
    assert [] + rows == rows && [] + Grouped(EventsOf(rows)) == Grouped(EventsOf(rows));
  }

  lemma {:induction false} StopIsEarlier(e: Event, next: Event, d: int)
    requires Counts(e) && InDay(BucketOf(e), d)
    requires next.timestamp.Some? && DayStart(d + 1) <= next.timestamp.value < DayStart(d + 2)
    ensures e.timestamp.value < next.timestamp.value && !FallsIn(next, BucketOf(e))
    ensures next.timestamp.value / 86_400_000 - 1 == d
  {
    DayStartsAnHour(d);
    DayStartsAnHour(d + 1);
    DayStartsAnHour(d + 2);
    HourIsInDayIff(e.timestamp.value, DayStart(d), DayStart(d + 1));
    HourIsInDayIff(next.timestamp.value, DayStart(d + 1), DayStart(d + 2));
  }

  lemma {:induction false} StopAndNext(r: CleanRow, next: CleanRow)
    requires Counts(r.event) && next.event.timestamp.Some? && !FallsIn(next.event, BucketOf(r.event))
    requires r.event.timestamp.value < next.event.timestamp.value
    ensures Exact([r, next], BucketOf(r.event)).sessions == 1
  {
    DistinctKeysSurvive([r, next]);
    assert EventsOf([r, next]) == [] + [r.event] + [next.event];
    SumSnoc([], r.event, BucketOf(r.event));
    SumSnoc([] + [r.event], next.event, BucketOf(r.event));
  }

  lemma {:induction false} NewestOfTwo(r: CleanRow, next: CleanRow)
    requires r.event.timestamp.Some? && next.event.timestamp.Some?
    requires r.event.timestamp.value < next.event.timestamp.value
    ensures Latest([r, next]) == next.event.timestamp
  {
    LatestIsMaximum([r, next]);
    assert [r, next][1] in [r, next];
  }

  /**
    Delete, any traffic, recompute: a bucket of the day ends exact if and only if no stop of the
    bucket arrived between the two commands; one that did is counted twice.
   */
  lemma {:induction false} SplitReconcileIsExactIff(t: Tables, d: int, ops: seq<Op>, b: Bucket)
    requires InDay(b, d) && LeavesDay(ops, d)
    ensures var t' := Apply(Perform(Apply(t, DeleteDay(d)), ops), RecomputeDay(d));
            && Read(t'.rollup, b) == Plus(StreamedBy(ops, b), Exact(t'.table.rows, b))
            && (Read(t'.rollup, b) == Exact(t'.table.rows, b) <==> StreamedBy(ops, b).sessions == 0)
  {
    DeletedDayShowsStream(t, d, ops, b);
    StreamedIsNotNegative(ops, b);
    ApplyReads(Perform(Apply(t, DeleteDay(d)), ops), RecomputeDay(d), b);
  }

  /** Buckets of other days read as if neither command had been given. */
  lemma {:induction false} OtherDaysAreUntouched(t: Tables, d: int, ops: seq<Op>, b: Bucket)
    requires !InDay(b, d)
    ensures var with := Apply(Perform(Apply(t, DeleteDay(d)), ops), RecomputeDay(d));
            var without := Perform(t, ops);
            with.table == without.table && Read(with.rollup, b) == Read(without.rollup, b)
  {
    ApplyReads(t, DeleteDay(d), b);
    SameReadsSameRun(Apply(t, DeleteDay(d)), t, ops, b);
    ApplyReads(Perform(Apply(t, DeleteDay(d)), ops), RecomputeDay(d), b);
  }

  lemma {:induction false} SameReadsSameRun(t: Tables, u: Tables, ops: seq<Op>, b: Bucket)
    requires t.table == u.table && Read(t.rollup, b) == Read(u.rollup, b)
    ensures Perform(t, ops).table == Perform(u, ops).table
    ensures Read(Perform(t, ops).rollup, b) == Read(Perform(u, ops).rollup, b)
  {
    if ops != [] {
      var n := |ops| - 1;
      SameReadsSameRun(t, u, ops[..n], b);
      SameReadsSameStep(Perform(t, ops[..n]), Perform(u, ops[..n]), ops[n], b);
    }
  }

  lemma {:induction false} SameReadsSameStep(t: Tables, u: Tables, op: Op, b: Bucket)
    requires t.table == u.table && Read(t.rollup, b) == Read(u.rollup, b)
    ensures Apply(t, op).table == Apply(u, op).table && Read(Apply(t, op).rollup, b) == Read(Apply(u, op).rollup, b)
  {
    ApplyReads(t, op, b);
    ApplyReads(u, op, b);
  }
}
