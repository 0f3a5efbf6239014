/**
  The landing table of deploy/clickhouse/init/01_schema.sql: a ReplacingMergeTree versioned
  by ingested_at. Rows of the clean topic arrive in blocks, in any order and possibly more than
  once; background merges drop superseded rows at arbitrary moments; FINAL reads the survivor of
  every sort key.
 */
module ReplacingStore {
  import opened Events
  import opened Analytics

  datatype SortKey = SortKey(stationId: string, connectorId: int, eventType: EventType, timestamp: Option<int>,
      eventId: string)

  function Key(r: CleanRow): SortKey {
    SortKey(r.event.stationId, r.event.connectorId, r.event.eventType, r.event.timestamp, r.event.eventId)
  }

  /** The newest ingested_at wins; among equals, the row inserted last. */
  function Put(m: map<SortKey, CleanRow>, r: CleanRow): map<SortKey, CleanRow> {
    if Key(r) in m && r.ingestedAt < m[Key(r)].ingestedAt then m else m[Key(r) := r]
  }

  function PutAll(m: map<SortKey, CleanRow>, rows: seq<CleanRow>): map<SortKey, CleanRow> {
    if rows == [] then m else Put(PutAll(m, rows[..|rows| - 1]), rows[|rows| - 1])
  }

  /** The meaning of FINAL over a table holding `rows` in insertion order. */
  function Final(rows: seq<CleanRow>): map<SortKey, CleanRow> {
    PutAll(map[], rows)
  }

  /** Some other row of the table replaces row `i`. */
  predicate Superseded(rows: seq<CleanRow>, i: nat)
    requires i < |rows|
  {
    exists j | 0 <= j < |rows| && j != i ::
      && Key(rows[j]) == Key(rows[i])
      && (rows[i].ingestedAt < rows[j].ingestedAt || (rows[i].ingestedAt == rows[j].ingestedAt && i < j))
  }

  /** Rows arrive in blocks, in any order and possibly more than once; merges drop superseded rows. */
  datatype TableStep = Insert(block: seq<CleanRow>) | MergeAway(i: nat)

  /** The rows present, and everything ever inserted. */
  datatype Table = Table(rows: seq<CleanRow>, inserted: seq<CleanRow>)

  const EMPTY_TABLE := Table([], [])

  function TableNext(t: Table, step: TableStep): Table {
    match step
    case Insert(block) => Table(t.rows + block, t.inserted + block)
    case MergeAway(i) =>
      if i < |t.rows| && Superseded(t.rows, i) then t.(rows := t.rows[..i] + t.rows[i + 1..]) else t
  }

  function TableRun(steps: seq<TableStep>): Table {
    if steps == [] then EMPTY_TABLE else TableNext(TableRun(steps[..|steps| - 1]), steps[|steps| - 1])
  }

  /** The table has taken in every row of the clean topic, at least once, and nothing else. */
  predicate CaughtUp(t: Table, clean: seq<CleanRow>) {
    && (forall r | r in t.inserted :: r in clean)
    && (forall r | r in clean :: r in t.inserted)
  }

  // ---------------------------------------------------------------------------------------
  // Merges are invisible to FINAL
  // ---------------------------------------------------------------------------------------

  lemma {:induction false} PutAllConcat(m: map<SortKey, CleanRow>, a: seq<CleanRow>, b: seq<CleanRow>)
    ensures PutAll(m, a + b) == PutAll(PutAll(m, a), b)
  {
    if b == [] {
      assert a + b == a;
    } else {
      var n := |b| - 1;
      assert (a + b)[..|a + b| - 1] == a + b[..n];
      PutAllConcat(m, a, b[..n]);
    }
  }

  /** Every inserted row is matched or beaten by the survivor of its key. */
  lemma {:induction false} FinalDominates(rows: seq<CleanRow>)
    ensures forall r | r in rows :: Key(r) in Final(rows) && r.ingestedAt <= Final(rows)[Key(r)].ingestedAt
    ensures forall k | k in Final(rows) :: Final(rows)[k] in rows && Key(Final(rows)[k]) == k
  {
    if rows != [] {
      var n := |rows| - 1;
      FinalDominates(rows[..n]);
      var m := Final(rows[..n]);
      assert Final(rows) == Put(m, rows[n]);
      assert forall r | r in rows :: r in rows[..n] || r == rows[n];
      forall k | k in Final(rows)
        ensures Final(rows)[k] in rows && Key(Final(rows)[k]) == k
      {
        if Final(rows)[k] != rows[n] {
          assert m[k] in rows[..n];
        }
      }
    }
  }

  /** Two tables that differ only in that the first holds `x` where the second holds less. */
  predicate OnlyAhead(m1: map<SortKey, CleanRow>, m2: map<SortKey, CleanRow>, x: CleanRow) {
    && Key(x) in m1 && m1[Key(x)] == x
    && (Key(x) in m2 ==> m2[Key(x)].ingestedAt <= x.ingestedAt)
    && m1 == m2[Key(x) := x]
  }

  lemma {:induction false} AheadIsForgotten(
    m1: map<SortKey, CleanRow>, m2: map<SortKey, CleanRow>, x: CleanRow, b: seq<CleanRow>)
    requires OnlyAhead(m1, m2, x)
    ensures PutAll(m1, b) == PutAll(m2, b) || OnlyAhead(PutAll(m1, b), PutAll(m2, b), x)
    ensures (exists r | r in b :: Key(r) == Key(x) && x.ingestedAt <= r.ingestedAt) ==> PutAll(m1, b) == PutAll(m2, b)
  {
    if b != [] {
      var n := |b| - 1;
      AheadIsForgotten(m1, m2, x, b[..n]);
      assert b == b[..n] + [b[n]];
      if PutAll(m1, b[..n]) != PutAll(m2, b[..n]) {
        AheadStep(PutAll(m1, b[..n]), PutAll(m2, b[..n]), x, b[n]);
      }
    }
  }

  lemma {:induction false} AheadStep(m1: map<SortKey, CleanRow>, m2: map<SortKey, CleanRow>, x: CleanRow, r: CleanRow)
    requires OnlyAhead(m1, m2, x)
    ensures Put(m1, r) == Put(m2, r) || OnlyAhead(Put(m1, r), Put(m2, r), x)
    ensures Key(r) == Key(x) && x.ingestedAt <= r.ingestedAt ==> Put(m1, r) == Put(m2, r)
  {
  }

  /** Dropping `x` between `a` and `b` is invisible when one of them supersedes it. */
  lemma {:induction false} DropIsInvisible(a: seq<CleanRow>, x: CleanRow, b: seq<CleanRow>)
    requires || (exists r | r in a :: Key(r) == Key(x) && x.ingestedAt < r.ingestedAt)
             || (exists r | r in b :: Key(r) == Key(x) && x.ingestedAt <= r.ingestedAt)
    ensures PutAll(Put(Final(a), x), b) == PutAll(Final(a), b)
  {
    var m := Final(a);
    FinalDominates(a);
    if Put(m, x) != m {
      assert OnlyAhead(Put(m, x), m, x);
      AheadIsForgotten(Put(m, x), m, x, b);
    }
  }

  /** Dropping a superseded row changes nothing that FINAL returns. */
  lemma {:induction false} MergeKeepsFinal(rows: seq<CleanRow>, i: nat)
    requires i < |rows| && Superseded(rows, i)
    ensures Final(rows[..i] + rows[i + 1..]) == Final(rows)
  {
    var a, x, b := rows[..i], rows[i], rows[i + 1..];
    var j :| 0 <= j < |rows| && j != i && Key(rows[j]) == Key(x)
             && (x.ingestedAt < rows[j].ingestedAt || (x.ingestedAt == rows[j].ingestedAt && i < j));
    assert if j < i then a[j] == rows[j] else b[j - i - 1] == rows[j];
    DropIsInvisible(a, x, b);
    assert Final(a + [x]) == Put(Final(a), x) by { assert (a + [x])[..|a|] == a; }
    PutAllConcat(map[], a + [x], b);
    PutAllConcat(map[], a, b);
    assert rows == (a + [x]) + b;
  }

  /** FINAL does not notice which merges have happened. */
  predicate Merged(t: Table) {
    && Final(t.rows) == Final(t.inserted)
    && forall r | r in t.rows :: r in t.inserted
  }

  lemma {:induction false} StepKeepsMerged(t: Table, step: TableStep)
    requires Merged(t)
    ensures Merged(TableNext(t, step))
  {
    match step
    case Insert(block) =>
      PutAllConcat(map[], t.rows, block);
      PutAllConcat(map[], t.inserted, block);
    case MergeAway(i) =>
      if i < |t.rows| && Superseded(t.rows, i) {
        MergeKeepsFinal(t.rows, i);
      }
  }

  /** Over every interleaving of insert blocks and merges, FINAL sees exactly what was inserted. */
  lemma {:induction false} MergesAreInvisible(steps: seq<TableStep>)
    ensures Merged(TableRun(steps))
  {
    if steps != [] {
      MergesAreInvisible(steps[..|steps| - 1]);
      StepKeepsMerged(TableRun(steps[..|steps| - 1]), steps[|steps| - 1]);
    }
  }

  // ---------------------------------------------------------------------------------------
  // SELECT ... FINAL as a list of rows
  // ---------------------------------------------------------------------------------------

  /** Position of the row with key `k`, or |rows| when there is none. */
  function Find(rows: seq<CleanRow>, k: SortKey): (i: nat)
    ensures i <= |rows|
    ensures i < |rows| ==> Key(rows[i]) == k
    ensures forall j | 0 <= j < i :: Key(rows[j]) != k
  {
    if rows == [] then 0 else if Key(rows[0]) == k then 0 else 1 + Find(rows[1..], k)
  }

  function Upsert(rows: seq<CleanRow>, r: CleanRow): seq<CleanRow> {
    var i := Find(rows, Key(r));
    if i == |rows| then rows + [r]
    else if r.ingestedAt < rows[i].ingestedAt then rows
    else rows[i := r]
  }

  function FinalRows(rows: seq<CleanRow>): seq<CleanRow> {
    if rows == [] then [] else Upsert(FinalRows(rows[..|rows| - 1]), rows[|rows| - 1])
  }

  /** The list holds each survivor once and nothing else. */
  predicate Enumerates(rows: seq<CleanRow>, m: map<SortKey, CleanRow>) {
    && (forall i, j | 0 <= i < j < |rows| :: Key(rows[i]) != Key(rows[j]))
    && (forall r | r in rows :: Key(r) in m && m[Key(r)] == r)
    && (forall k | k in m :: Key(m[k]) == k && m[k] in rows)
  }

  lemma {:induction false} UpsertIsPut(rows: seq<CleanRow>, m: map<SortKey, CleanRow>, r: CleanRow)
    requires Enumerates(rows, m)
    ensures Enumerates(Upsert(rows, r), Put(m, r))
  {
    var i := Find(rows, Key(r));
    var after, m' := Upsert(rows, r), Put(m, r);
    if i == |rows| {
      assert Key(r) !in m;
      assert after[|rows|] == r;
    } else {
      assert rows[i] in rows;
    }
    forall x | x in after
      ensures Key(x) in m' && m'[Key(x)] == x
    {
      var j :| 0 <= j < |after| && after[j] == x;
      assert j < |rows| ==> rows[j] in rows;
    }
    forall k | k in m'
      ensures Key(m'[k]) == k && m'[k] in after
    {
      assert i < |rows| && after != rows ==> after[i] == r;
      if k != Key(r) || m' == m {
        var j :| 0 <= j < |rows| && rows[j] == m[k];
        assert after[j] == m[k];
      }
    }
  }

  lemma {:induction false} FinalRowsEnumerate(rows: seq<CleanRow>)
    ensures Enumerates(FinalRows(rows), Final(rows))
  {
    if rows != [] {
      FinalRowsEnumerate(rows[..|rows| - 1]);
      UpsertIsPut(FinalRows(rows[..|rows| - 1]), Final(rows[..|rows| - 1]), rows[|rows| - 1]);
    }
  }
}
