/**
  One flush of the analytics path (processor/analytics.go, dedup.go, producer.go):
  route, drop in-batch repeats, look up the dedup keys, produce, dead-letter, mark.
  Clocks and the answers of Kafka and Redis are parameters.
 */
module Analytics {
  import opened Events
  import opened Validation

  /** A raw message value: text that does not parse as JSON, or the event it parses to. */
  datatype Payload = Malformed(raw: string) | Json(event: Event)

  datatype Message = Message(partition: nat, offset: nat, key: string, payload: Payload, time: int)

  /** A row of the clean topic: the flattened event and the two processing stamps. */
  datatype CleanRow = CleanRow(event: Event, ingestedAt: int, producedAt: int)

  datatype DeadLetter = DeadLetter(key: string, payload: Payload, rule: Rule, ingestedAt: int)

  /**
    What a synchronous write did. `landed` lists the rows (by position) that reached the log
    besides the acknowledged batch: the part written before a failure, or the repeats left
    behind by the client's own retries.
   */
  datatype Write = Write(ok: bool, landed: seq<nat>)

  /** What the pipelined SETs of a mark did: all applied, or only those among `reached`. */
  datatype MarkOutcome = AllMarked | Interrupted(reached: set<string>)

  /** Decode, then Validate. */
  function Judge(payload: Payload, view: View): Verdict {
    match payload
    case Malformed(_) => Rejected(InvalidJson)
    case Json(e) => Validate(e, view)
  }

  function Valid(batch: seq<Message>, views: seq<View>, at: int): seq<CleanRow>
    requires |views| == |batch|
  {
    if batch == [] then []
    else
      var n := |batch| - 1;
      var rest := Valid(batch[..n], views[..n], at);
      if Judge(batch[n].payload, views[n]).Accepted?
      then rest + [CleanRow(batch[n].payload.event, at, batch[n].time)]
      else rest
  }

  function Dead(batch: seq<Message>, views: seq<View>, at: int): seq<DeadLetter>
    requires |views| == |batch|
  {
    if batch == [] then []
    else
      var n := |batch| - 1;
      var rest := Dead(batch[..n], views[..n], at);
      match Judge(batch[n].payload, views[n])
      case Accepted(_) => rest
      case Rejected(rule) => rest + [DeadLetter(batch[n].key, batch[n].payload, rule, at)]
  }

  function Ids(rows: seq<CleanRow>): set<string> {
    set i | 0 <= i < |rows| :: rows[i].event.eventId
  }

  function Payloads(dead: seq<DeadLetter>): set<Payload> {
    set i | 0 <= i < |dead| :: dead[i].payload
  }

  /** First occurrence of every event id, in order. */
  function Unique(rows: seq<CleanRow>): seq<CleanRow> {
    if rows == [] then []
    else
      var n := |rows| - 1;
      if rows[n].event.eventId in Ids(rows[..n]) then Unique(rows[..n]) else Unique(rows[..n]) + [rows[n]]
  }

  /** Rows whose id is not among the keys. */
  function Unseen(rows: seq<CleanRow>, keys: set<string>): seq<CleanRow> {
    if rows == [] then []
    else
      var n := |rows| - 1;
      if rows[n].event.eventId in keys then Unseen(rows[..n], keys) else Unseen(rows[..n], keys) + [rows[n]]
  }

  /** What reaches the clean producer; a failed lookup fails open. */
  function Fresh(batch: seq<Message>, views: seq<View>, at: int, keys: set<string>, lookupOk: bool): seq<CleanRow>
    requires |views| == |batch|
  {
    Unseen(Unique(Valid(batch, views, at)), if lookupOk then keys else {})
  }

  function Landed<T>(items: seq<T>, landed: seq<nat>): seq<T> {
    if landed == [] then []
    else
      var n := |landed| - 1;
      if landed[n] < |items| then Landed(items, landed[..n]) + [items[landed[n]]] else Landed(items, landed[..n])
  }

  /** A write of nothing is skipped and cannot fail. */
  predicate Fails<T>(items: seq<T>, w: Write) {
    |items| > 0 && !w.ok
  }

  function Appended<T>(items: seq<T>, w: Write): seq<T> {
    if Fails(items, w) then Landed(items, w.landed) else items + Landed(items, w.landed)
  }

  function Marked(keys: set<string>, rows: seq<CleanRow>, outcome: MarkOutcome): set<string> {
    match outcome
    case AllMarked => keys + Ids(rows)
    case Interrupted(reached) => keys + (Ids(rows) * reached)
  }

  /** The order-aligned lookup and the expiring marks of processor/dedup.go. */
  class Deduper {
    var keys: set<string>

    constructor ()
      ensures keys == {}
    {
      keys := {};
    }

    method SeenBatch(ids: seq<string>, ok: bool) returns (seen: Option<seq<bool>>)
      ensures seen.None? <==> |ids| > 0 && !ok
      ensures seen.Some? ==> |seen.value| == |ids|
      ensures seen.Some? ==> forall i | 0 <= i < |ids| :: seen.value[i] <==> ids[i] in keys
    {
      if |ids| == 0 {
        return Some([]);
      }
      if !ok {
        return None;
      }
      var answers: seq<bool> := [];
      for i := 0 to |ids|
        invariant |answers| == i
        invariant forall k | 0 <= k < i :: answers[k] <==> ids[k] in keys
      {
        answers := answers + [ids[i] in keys];
      }
      return Some(answers);
    }

    method MarkBatch(rows: seq<CleanRow>, outcome: MarkOutcome)
      modifies this
      ensures keys == Marked(old(keys), rows, outcome)
    {
      for i := 0 to |rows|
        invariant keys == Marked(old(keys), rows[..i], outcome)
      {
        assert Ids(rows[..i + 1]) == Ids(rows[..i]) + {rows[i].event.eventId};
        if outcome.AllMarked? || rows[i].event.eventId in outcome.reached {
          keys := keys + {rows[i].event.eventId};
        }
      }
      assert rows[..|rows|] == rows;
    }
  }

  /** The two synchronous producers of processor/producer.go over their append-only logs. */
  class Writers {
    var clean: seq<CleanRow>
    var dlq: seq<DeadLetter>

    constructor ()
      ensures clean == [] && dlq == []
    {
      clean, dlq := [], [];
    }

    method WriteCleanBatch(rows: seq<CleanRow>, w: Write) returns (err: bool)
      modifies this`clean
      ensures err <==> |rows| > 0 && !w.ok
      ensures clean == old(clean) + Appended(rows, w)
    {
      if |rows| == 0 {
        LandedEmpty<CleanRow>(w.landed);
        return false;
      }
      clean := clean + Appended(rows, w);
      return !w.ok;
    }

    method WriteDlqBatch(items: seq<DeadLetter>, w: Write) returns (err: bool)
      modifies this`dlq
      ensures err <==> |items| > 0 && !w.ok
      ensures dlq == old(dlq) + Appended(items, w)
    {
      if |items| == 0 {
        LandedEmpty<DeadLetter>(w.landed);
        return false;
      }
      dlq := dlq + Appended(items, w);
      return !w.ok;
    }
  }

  lemma {:induction false} LandedEmpty<T>(landed: seq<nat>)
    ensures Landed<T>([], landed) == []
  {
    if landed != [] {
      LandedEmpty<T>(landed[..|landed| - 1]);
    }
  }

  class AnalyticsHandler {
    const dedup: Deduper
    const writers: Writers

    constructor (d: Deduper, w: Writers)
      ensures dedup == d && writers == w
    {
      dedup, writers := d, w;
    }

    /**
      Returns an error exactly when a produce fails. Whatever happens, the keys change only
      after both outputs are durable.
     */
    method Flush(batch: seq<Message>, views: seq<View>, at: int,
                 lookupOk: bool, cleanWrite: Write, dlqWrite: Write, mark: MarkOutcome) returns (err: bool)
      requires |views| == |batch|
      modifies dedup, writers
      ensures var novel := Fresh(batch, views, at, old(dedup.keys), lookupOk);
              var dead := Dead(batch, views, at);
              && writers.clean == old(writers.clean) + Appended(novel, cleanWrite)
              && writers.dlq == old(writers.dlq) + (if Fails(novel, cleanWrite) then [] else Appended(dead, dlqWrite))
              && err == ((novel != [] && !cleanWrite.ok) || (dead != [] && !dlqWrite.ok))
              && dedup.keys == if err then old(dedup.keys) else Marked(old(dedup.keys), novel, mark)
    {
      var valid, dead;
      ghost var ok, bad;
      valid, dead, ok, bad := RouteBatch(batch, views, at);
      var uniq := DropRepeats(valid);
      var novel := DropSeen(uniq, lookupOk);
      err := writers.WriteCleanBatch(novel, cleanWrite);
      if err {
        return;
      }
      err := writers.WriteDlqBatch(dead, dlqWrite);
      if err {
        return;
      }
      dedup.MarkBatch(novel, mark);
    }

    /** The accepted and the rejected messages, each once and in order. */
    method RouteBatch(batch: seq<Message>, views: seq<View>, at: int)
      returns (valid: seq<CleanRow>, dead: seq<DeadLetter>, ghost ok: seq<nat>, ghost bad: seq<nat>)
      requires |views| == |batch|
      ensures valid == Valid(batch, views, at)
      ensures dead == Dead(batch, views, at)
      ensures |valid| + |dead| == |batch|
      ensures RowsOf(valid, batch, views, at, ok) && LettersOf(dead, batch, views, at, bad)
    {
      ok, bad := RoutingIsExact(batch, views, at);
      valid, dead := [], [];
      for i := 0 to |batch|
        invariant valid == Valid(batch[..i], views[..i], at)
        invariant dead == Dead(batch[..i], views[..i], at)
      {
        assert batch[..i + 1][..i] == batch[..i] && views[..i + 1][..i] == views[..i];
        match Judge(batch[i].payload, views[i])
        case Accepted(_) =>
          valid := valid + [CleanRow(batch[i].payload.event, at, batch[i].time)];
        case Rejected(rule) =>
          dead := dead + [DeadLetter(batch[i].key, batch[i].payload, rule, at)];
      }
      assert batch[..|batch|] == batch && views[..|batch|] == views;
    }

    method DropRepeats(valid: seq<CleanRow>) returns (uniq: seq<CleanRow>)
      ensures uniq == Unique(valid)
    {
      var inBatch: set<string> := {};
      uniq := [];
      for i := 0 to |valid|
        invariant inBatch == Ids(valid[..i])
        invariant uniq == Unique(valid[..i])
      {
        assert valid[..i + 1][..i] == valid[..i];
        assert Ids(valid[..i + 1]) == Ids(valid[..i]) + {valid[i].event.eventId};
        if valid[i].event.eventId !in inBatch {
          inBatch := inBatch + {valid[i].event.eventId};
          uniq := uniq + [valid[i]];
        }
      }
      assert valid[..|valid|] == valid;
    }

    method DropSeen(uniq: seq<CleanRow>, lookupOk: bool) returns (novel: seq<CleanRow>)
      ensures novel == Unseen(uniq, if lookupOk then dedup.keys else {})
    {
      var ids := seq(|uniq|, i requires 0 <= i < |uniq| => uniq[i].event.eventId);
      var seen := dedup.SeenBatch(ids, lookupOk);
      ghost var keys := if lookupOk then dedup.keys else {};
      novel := [];
      for i := 0 to |uniq|
        invariant novel == Unseen(uniq[..i], keys)
      {
        assert uniq[..i + 1][..i] == uniq[..i];
        if seen.None? || !seen.value[i] {
          novel := novel + [uniq[i]];
        }
      }
      assert uniq[..|uniq|] == uniq;
    }
  }

  // ---------------------------------------------------------------------------------------
  // What is produced, position by position
  // ---------------------------------------------------------------------------------------

  predicate Increasing(ps: seq<nat>) {
    forall i, j | 0 <= i < j < |ps| :: ps[i] < ps[j]
  }

  /** `ps` lists, in order, exactly the positions that are marked. */
  predicate Lists(ps: seq<nat>, marked: seq<bool>) {
    && Increasing(ps)
    && (forall j | 0 <= j < |ps| :: ps[j] < |marked|)
    && (forall i | 0 <= i < |marked| :: i in ps <==> marked[i])
  }

  lemma {:induction false} ListsSnoc(ps: seq<nat>, marked: seq<bool>, last: bool)
    requires Lists(ps, marked)
    ensures Lists(if last then ps + [|marked|] else ps, marked + [last])
  {
    var more := if last then ps + [|marked|] else ps;
    forall i | 0 <= i <= |marked|
      ensures i in more <==> (marked + [last])[i]
    {
      assert i in more <==> i in ps || (last && i == |marked|);
    }
  }

  function AcceptedMarks(batch: seq<Message>, views: seq<View>): seq<bool>
    requires |views| == |batch|
  {
    seq(|batch|, i requires 0 <= i < |batch| => Judge(batch[i].payload, views[i]).Accepted?)
  }

  function RejectedMarks(batch: seq<Message>, views: seq<View>): seq<bool>
    requires |views| == |batch|
  {
    seq(|batch|, i requires 0 <= i < |batch| => Judge(batch[i].payload, views[i]).Rejected?)
  }

  /** Row `j` is message `ps[j]`, stamped. */
  predicate RowsAt(rows: seq<CleanRow>, batch: seq<Message>, at: int, ps: seq<nat>) {
    && |rows| == |ps|
    && forall j | 0 <= j < |ps| ::
         && ps[j] < |batch| && batch[ps[j]].payload.Json?
         && rows[j] == CleanRow(batch[ps[j]].payload.event, at, batch[ps[j]].time)
  }

  /** Letter `j` is message `ps[j]` with its key, its payload, the rule it broke and the stamp. */
  predicate LettersAt(dead: seq<DeadLetter>, batch: seq<Message>, views: seq<View>, at: int, ps: seq<nat>)
    requires |views| == |batch|
  {
    && |dead| == |ps|
    && forall j | 0 <= j < |ps| ::
         && ps[j] < |batch| && Judge(batch[ps[j]].payload, views[ps[j]]).Rejected?
         && dead[j] == DeadLetter(batch[ps[j]].key, batch[ps[j]].payload,
                                  Judge(batch[ps[j]].payload, views[ps[j]]).rule, at)
  }

  /** The rows are the accepted messages, each once and in order. */
  predicate RowsOf(rows: seq<CleanRow>, batch: seq<Message>, views: seq<View>, at: int, ps: seq<nat>)
    requires |views| == |batch|
  {
    RowsAt(rows, batch, at, ps) && Lists(ps, AcceptedMarks(batch, views))
  }

  /** The letters are the rejected messages, each once and in order. */
  predicate LettersOf(dead: seq<DeadLetter>, batch: seq<Message>, views: seq<View>, at: int, ps: seq<nat>)
    requires |views| == |batch|
  {
    LettersAt(dead, batch, views, at, ps) && Lists(ps, RejectedMarks(batch, views))
  }

  lemma {:induction false} RoutingIsExact(batch: seq<Message>, views: seq<View>, at: int)
    returns (ok: seq<nat>, bad: seq<nat>)
    requires |views| == |batch|
    ensures RowsOf(Valid(batch, views, at), batch, views, at, ok)
    ensures LettersOf(Dead(batch, views, at), batch, views, at, bad)
    ensures |ok| + |bad| == |batch|
  {
    if batch == [] {
      ok, bad := [], [];
    } else {
      var n := |batch| - 1;
      var yes := Judge(batch[n].payload, views[n]).Accepted?;
      ok, bad := RoutingIsExact(batch[..n], views[..n], at);
      ListsSnoc(ok, AcceptedMarks(batch[..n], views[..n]), yes);
      ListsSnoc(bad, RejectedMarks(batch[..n], views[..n]), !yes);
      MarksSnoc(batch, views);
      LastRow(batch, views, at, ok);
      LastLetter(batch, views, at, bad);
      ok, bad := if yes then ok + [n] else ok, if yes then bad else bad + [n];
    }
  }

  lemma {:induction false} MarksSnoc(batch: seq<Message>, views: seq<View>)
    requires |views| == |batch| > 0
    ensures var n := |batch| - 1;
            var yes := Judge(batch[n].payload, views[n]).Accepted?;
            && AcceptedMarks(batch, views) == AcceptedMarks(batch[..n], views[..n]) + [yes]
            && RejectedMarks(batch, views) == RejectedMarks(batch[..n], views[..n]) + [!yes]
  {
  }

  lemma {:induction false} LastRow(batch: seq<Message>, views: seq<View>, at: int, ps: seq<nat>)
    requires |views| == |batch| > 0
    requires RowsAt(Valid(batch[..|batch| - 1], views[..|batch| - 1], at), batch[..|batch| - 1], at, ps)
    ensures RowsAt(Valid(batch, views, at), batch, at,
                   if Judge(batch[|batch| - 1].payload, views[|batch| - 1]).Accepted? then ps + [|batch| - 1] else ps)
  {
  }

  lemma {:induction false} LastLetter(batch: seq<Message>, views: seq<View>, at: int, ps: seq<nat>)
    requires |views| == |batch| > 0
    requires var n := |batch| - 1; LettersAt(Dead(batch[..n], views[..n], at), batch[..n], views[..n], at, ps)
    ensures LettersAt(Dead(batch, views, at), batch, views, at,
                      if Judge(batch[|batch| - 1].payload, views[|batch| - 1]).Accepted? then ps
                          else ps + [|batch| - 1])
  {
  }

  /** The rows of `some` are those of `rows` at the positions `ps`. */
  predicate PickedAt(some: seq<CleanRow>, rows: seq<CleanRow>, ps: seq<nat>) {
    && |some| == |ps|
    && forall j | 0 <= j < |ps| :: ps[j] < |rows| && some[j] == rows[ps[j]]
  }

  function FirstMarks(rows: seq<CleanRow>): seq<bool> {
    seq(|rows|, i requires 0 <= i < |rows| => rows[i].event.eventId !in Ids(rows[..i]))
  }

  function NewMarks(rows: seq<CleanRow>, keys: set<string>): seq<bool> {
    seq(|rows|, i requires 0 <= i < |rows| => rows[i].event.eventId !in keys)
  }

  lemma {:induction false} UniqueAt(rows: seq<CleanRow>) returns (ps: seq<nat>)
    ensures PickedAt(Unique(rows), rows, ps) && Lists(ps, FirstMarks(rows))
  {
    if rows == [] {
      ps := [];
    } else {
      var n := |rows| - 1;
      var yes := rows[n].event.eventId !in Ids(rows[..n]);
      ps := UniqueAt(rows[..n]);
      ListsSnoc(ps, FirstMarks(rows[..n]), yes);
      LastPick(Unique(rows[..n]), rows, ps, yes);
      FirstMarksSnoc(rows);
      ps := if yes then ps + [n] else ps;
    }
  }

  lemma {:induction false} FirstMarksSnoc(rows: seq<CleanRow>)
    requires rows != []
    ensures var n := |rows| - 1;
            FirstMarks(rows) == FirstMarks(rows[..n]) + [rows[n].event.eventId !in Ids(rows[..n])]
  {
    var n := |rows| - 1;
    assert forall i | 0 <= i < n :: rows[..n][..i] == rows[..i];
  }

  lemma {:induction false} UnseenAt(rows: seq<CleanRow>, keys: set<string>) returns (ps: seq<nat>)
    ensures PickedAt(Unseen(rows, keys), rows, ps) && Lists(ps, NewMarks(rows, keys))
  {
    if rows == [] {
      ps := [];
    } else {
      var n := |rows| - 1;
      var yes := rows[n].event.eventId !in keys;
      ps := UnseenAt(rows[..n], keys);
      ListsSnoc(ps, NewMarks(rows[..n], keys), yes);
      LastPick(Unseen(rows[..n], keys), rows, ps, yes);
      NewMarksSnoc(rows, keys);
      ps := if yes then ps + [n] else ps;
    }
  }

  lemma {:induction false} NewMarksSnoc(rows: seq<CleanRow>, keys: set<string>)
    requires rows != []
    ensures var n := |rows| - 1;
            NewMarks(rows, keys) == NewMarks(rows[..n], keys) + [rows[n].event.eventId !in keys]
  {
  }

  lemma {:induction false} LastPick(some: seq<CleanRow>, rows: seq<CleanRow>, ps: seq<nat>, yes: bool)
    requires rows != [] && PickedAt(some, rows[..|rows| - 1], ps)
    ensures PickedAt(if yes then some + [rows[|rows| - 1]] else some, rows, if yes then ps + [|rows| - 1] else ps)
  {
  }

  function Through(a: seq<nat>, b: seq<nat>): seq<nat>
    requires forall j | 0 <= j < |b| :: b[j] < |a|
  {
    seq(|b|, j requires 0 <= j < |b| => a[b[j]])
  }

  /** Accepted, the first of its id in the batch, and without a live key. */
  predicate IsFresh(batch: seq<Message>, views: seq<View>, keys: set<string>, lookupOk: bool, i: nat)
    requires |views| == |batch| && i < |batch|
  {
    && Judge(batch[i].payload, views[i]).Accepted? && batch[i].payload.Json?
    && !(lookupOk && batch[i].payload.event.eventId in keys)
    && forall k | 0 <= k < i && Judge(batch[k].payload, views[k]).Accepted? ::
         batch[k].payload.Json? && batch[k].payload.event.eventId != batch[i].payload.event.eventId
  }

  function FreshMarks(batch: seq<Message>, views: seq<View>, keys: set<string>, lookupOk: bool): seq<bool>
    requires |views| == |batch|
  {
    seq(|batch|, i requires 0 <= i < |batch| => IsFresh(batch, views, keys, lookupOk, i))
  }

  /**
    What reaches the clean producer, exactly: one row for each accepted message that is the first
    of its id in the batch and has no live key, in the order of the batch, and nothing else.
   */
  lemma {:induction false} FreshIsExact(
    batch: seq<Message>, views: seq<View>, at: int, keys: set<string>, lookupOk: bool) returns (ps: seq<nat>)
    requires |views| == |batch|
    ensures RowsAt(Fresh(batch, views, at, keys, lookupOk), batch, at, ps)
    ensures Lists(ps, FreshMarks(batch, views, keys, lookupOk))
  {
    var valid := Valid(batch, views, at);
    var live := if lookupOk then keys else {};
    var ok, bad := RoutingIsExact(batch, views, at);
    var us := UniqueAt(valid);
    var vs := UnseenAt(Unique(valid), live);
    ps := Through(ok, Through(us, vs));
    forall i | 0 <= i < |batch|
      ensures i in ps <==> IsFresh(batch, views, keys, lookupOk, i)
    {
      FreshAt(batch, views, at, keys, lookupOk, ok, us, vs, i);
    }
  }

  /** The three filters one after the other, by position. */
  predicate Filtered(
    batch: seq<Message>, views: seq<View>, at: int, live: set<string>, ok: seq<nat>, us: seq<nat>, vs: seq<nat>)
    requires |views| == |batch|
  {
    var valid := Valid(batch, views, at);
    && RowsOf(valid, batch, views, at, ok)
    && PickedAt(Unique(valid), valid, us) && Lists(us, FirstMarks(valid))
    && PickedAt(Unseen(Unique(valid), live), Unique(valid), vs) && Lists(vs, NewMarks(Unique(valid), live))
  }

  lemma {:induction false} FreshAt(
    batch: seq<Message>, views: seq<View>, at: int, keys: set<string>, lookupOk: bool,
    ok: seq<nat>, us: seq<nat>, vs: seq<nat>, i: nat)
    requires |views| == |batch| && i < |batch|
    requires Filtered(batch, views, at, if lookupOk then keys else {}, ok, us, vs)
    ensures i in Through(ok, Through(us, vs)) <==> IsFresh(batch, views, keys, lookupOk, i)
  {
    var ps := Through(ok, Through(us, vs));
    if i in ps {
      var j :| 0 <= j < |ps| && ps[j] == i;
      KeptIsFresh(batch, views, at, keys, lookupOk, ok, us, vs, j);
    }
    if IsFresh(batch, views, keys, lookupOk, i) {
      FreshIsKept(batch, views, at, keys, lookupOk, ok, us, vs, i);
    }
  }

  lemma {:induction false} KeptIsFresh(
    batch: seq<Message>, views: seq<View>, at: int, keys: set<string>, lookupOk: bool,
    ok: seq<nat>, us: seq<nat>, vs: seq<nat>, j: nat)
    requires |views| == |batch| && j < |vs|
    requires Filtered(batch, views, at, if lookupOk then keys else {}, ok, us, vs)
    ensures IsFresh(batch, views, keys, lookupOk, ok[us[vs[j]]])
  {
    var k := vs[j];
    var m := us[k];
    assert k in vs && m in us && ok[m] in ok;
    FirstOfItsId(batch, views, at, ok, m);
    assert AcceptedMarks(batch, views)[ok[m]];
    assert FirstMarks(Valid(batch, views, at))[m];
    assert NewMarks(Unique(Valid(batch, views, at)), if lookupOk then keys else {})[k];
  }

  lemma {:induction false} FreshIsKept(
    batch: seq<Message>, views: seq<View>, at: int, keys: set<string>, lookupOk: bool,
    ok: seq<nat>, us: seq<nat>, vs: seq<nat>, i: nat)
    requires |views| == |batch| && i < |batch| && IsFresh(batch, views, keys, lookupOk, i)
    requires Filtered(batch, views, at, if lookupOk then keys else {}, ok, us, vs)
    ensures i in Through(ok, Through(us, vs))
  {
    assert AcceptedMarks(batch, views)[i] && i in ok;
    var m :| 0 <= m < |ok| && ok[m] == i;
    FirstOfItsId(batch, views, at, ok, m);
    assert FirstMarks(Valid(batch, views, at))[m] && m in us;
    var k :| 0 <= k < |us| && us[k] == m;
    assert NewMarks(Unique(Valid(batch, views, at)), if lookupOk then keys else {})[k] && k in vs;
    var j :| 0 <= j < |vs| && vs[j] == k;
    assert Through(ok, Through(us, vs))[j] == i;
  }

  /** Being the first row of an id is being the first accepted message of it. */
  lemma {:induction false} FirstOfItsId(batch: seq<Message>, views: seq<View>, at: int, ok: seq<nat>, m: nat)
    requires |views| == |batch| && RowsOf(Valid(batch, views, at), batch, views, at, ok) && m < |ok|
    ensures batch[ok[m]].payload.Json?
    ensures var valid := Valid(batch, views, at);
            valid[m].event.eventId !in Ids(valid[..m]) <==>
              forall k | 0 <= k < ok[m] && Judge(batch[k].payload, views[k]).Accepted? ::
                batch[k].payload.Json? && batch[k].payload.event.eventId != batch[ok[m]].payload.event.eventId
  {
    var valid := Valid(batch, views, at);
    var id := valid[m].event.eventId;
    if id !in Ids(valid[..m]) {
      forall k | 0 <= k < ok[m] && Judge(batch[k].payload, views[k]).Accepted?
        ensures batch[k].payload.Json? && batch[k].payload.event.eventId != id
      {
        assert AcceptedMarks(batch, views)[k] && k in ok;
        var j :| 0 <= j < |ok| && ok[j] == k;
        assert j < m && valid[..m][j] == valid[j];
      }
    } else {
      var j :| 0 <= j < |valid[..m]| && valid[..m][j].event.eventId == id;
      assert ok[j] < ok[m] && ok[j] in ok;
      assert AcceptedMarks(batch, views)[ok[j]];
    }
  }

  /** What a mark leaves: the old keys and the ids it reached. */
  lemma {:induction false} MarkedIsExact(keys: set<string>, rows: seq<CleanRow>, outcome: MarkOutcome, id: string)
    ensures id in Marked(keys, rows, outcome) <==>
              || id in keys
              || ((exists i :: 0 <= i < |rows| && rows[i].event.eventId == id)
                  && (outcome.AllMarked? || id in outcome.reached))
  {
  }

  /** What a write leaves: the whole batch in order when it succeeds, and the rows that landed besides. */
  lemma {:induction false} AppendedIsExact<T>(items: seq<T>, w: Write)
    requires forall i | 0 <= i < |w.landed| :: w.landed[i] < |items|
    ensures var out := Appended(items, w);
            var whole := if |items| > 0 && !w.ok then 0 else |items|;
            && |out| == whole + |w.landed|
            && out[..whole] == items[..whole]
            && forall i | 0 <= i < |w.landed| :: out[whole + i] == items[w.landed[i]]
  {
    LandedAt(items, w.landed);
  }

  lemma {:induction false} LandedAt<T>(items: seq<T>, landed: seq<nat>)
    requires forall i | 0 <= i < |landed| :: landed[i] < |items|
    ensures |Landed(items, landed)| == |landed|
    ensures forall i | 0 <= i < |landed| :: Landed(items, landed)[i] == items[landed[i]]
  {
    if landed != [] {
      LandedAt(items, landed[..|landed| - 1]);
    }
  }

  // ---------------------------------------------------------------------------------------
  // What the flush keeps: no message of the batch is forgotten, and no id is repeated.
  // ---------------------------------------------------------------------------------------

  /** An accepted message reaches `Valid`, a rejected one reaches `Dead`. */
  lemma {:induction false} RoutingIsTotal(batch: seq<Message>, views: seq<View>, at: int, k: nat)
    requires |views| == |batch| && k < |batch|
    ensures Judge(batch[k].payload, views[k]).Accepted? ==>
              exists i :: 0 <= i < |Valid(batch, views, at)| && Valid(batch, views,
                  at)[i].event == batch[k].payload.event
    ensures Judge(batch[k].payload, views[k]).Rejected? ==> batch[k].payload in Payloads(Dead(batch, views, at))
  {
    var n := |batch| - 1;
    var rows, dead := Valid(batch, views, at), Dead(batch, views, at);
    var rows0, dead0 := Valid(batch[..n], views[..n], at), Dead(batch[..n], views[..n], at);
    if k < n {
      RoutingIsTotal(batch[..n], views[..n], at, k);
      assert rows0 <= rows && dead0 <= dead;
      if Judge(batch[k].payload, views[k]).Accepted? {
        var i :| 0 <= i < |rows0| && rows0[i].event == batch[k].payload.event;
        assert rows[i].event == batch[k].payload.event;
      } else {
        var j :| 0 <= j < |dead0| && dead0[j].payload == batch[k].payload;
        assert dead[j].payload == batch[k].payload;
      }
    } else if Judge(batch[k].payload, views[k]).Accepted? {
      assert rows[|rows| - 1].event == batch[k].payload.event;
    } else {
      assert dead[|dead| - 1].payload == batch[k].payload;
    }
  }

  /** Conversely, rows and dead letters only come from messages judged that way. */
  lemma {:induction false} RoutingIsSound(batch: seq<Message>, views: seq<View>, at: int)
    requires |views| == |batch|
    ensures forall r | r in Valid(batch, views, at) ::
              exists k | 0 <= k < |batch| :: Judge(batch[k].payload, views[k]).Accepted?
                  && batch[k].payload == Json(r.event)
    ensures forall d | d in Dead(batch, views, at) ::
              exists k | 0 <= k < |batch| :: Judge(batch[k].payload, views[k]).Rejected?
                  && batch[k].payload == d.payload
  {
    if batch != [] {
      var n := |batch| - 1;
      RoutingIsSound(batch[..n], views[..n], at);
      forall r | r in Valid(batch, views, at)
        ensures exists k | 0 <= k < |batch| ::
                  Judge(batch[k].payload, views[k]).Accepted? && batch[k].payload == Json(r.event)
      {
        if r in Valid(batch[..n], views[..n], at) {
          var k :| 0 <= k < n && Judge(batch[..n][k].payload, views[..n][k]).Accepted?
              && batch[..n][k].payload == Json(r.event);
          assert Judge(batch[k].payload, views[k]).Accepted?;
        }
      }
      forall d | d in Dead(batch, views, at)
        ensures exists k | 0 <= k < |batch| ::
                  Judge(batch[k].payload, views[k]).Rejected? && batch[k].payload == d.payload
      {
        if d in Dead(batch[..n], views[..n], at) {
          var k :| 0 <= k < n && Judge(batch[..n][k].payload, views[..n][k]).Rejected?
              && batch[..n][k].payload == d.payload;
          assert Judge(batch[k].payload, views[k]).Rejected?;
        }
      }
    }
  }

  predicate DistinctIds(rows: seq<CleanRow>) {
    forall i, j | 0 <= i < j < |rows| :: rows[i].event.eventId != rows[j].event.eventId
  }

  /** Exactly one row per id survives, and it is the first one of that id. */
  lemma {:induction false} UniqueKeepsIds(rows: seq<CleanRow>)
    ensures Ids(Unique(rows)) == Ids(rows)
    ensures DistinctIds(Unique(rows))
    ensures forall r | r in Unique(rows) ::
              exists k | 0 <= k < |rows| :: rows[k] == r && r.event.eventId !in Ids(rows[..k])
  {
    if rows != [] {
      var n := |rows| - 1;
      UniqueKeepsIds(rows[..n]);
      IdsSnoc(rows[..n], rows[n]);
      IdsSnoc(Unique(rows[..n]), rows[n]);
      assert rows == rows[..n] + [rows[n]];
      forall r | r in Unique(rows)
        ensures exists k | 0 <= k < |rows| :: rows[k] == r && r.event.eventId !in Ids(rows[..k])
      {
        if r in Unique(rows[..n]) {
          var k :| 0 <= k < n && rows[..n][k] == r && r.event.eventId !in Ids(rows[..n][..k]);
          assert rows[..n][..k] == rows[..k] && rows[k] == r;
        }
      }
    }
  }

  lemma {:induction false} UnseenKeepsIds(rows: seq<CleanRow>, keys: set<string>)
    ensures Ids(Unseen(rows, keys)) == Ids(rows) - keys
    ensures DistinctIds(rows) ==> DistinctIds(Unseen(rows, keys))
    ensures forall r | r in Unseen(rows, keys) :: r in rows
  {
    if rows != [] {
      var n := |rows| - 1;
      UnseenKeepsIds(rows[..n], keys);
      IdsSnoc(rows[..n], rows[n]);
      IdsSnoc(Unseen(rows[..n], keys), rows[n]);
      assert rows == rows[..n] + [rows[n]];
    }
  }

  lemma {:induction false} IdsSnoc(rows: seq<CleanRow>, r: CleanRow)
    ensures Ids(rows + [r]) == Ids(rows) + {r.event.eventId}
    ensures DistinctIds(rows) && r.event.eventId !in Ids(rows) ==> DistinctIds(rows + [r])
  {
    var more := rows + [r];
    assert more[|rows|] == r;
    forall i | 0 <= i < |rows|
      ensures rows[i].event.eventId in Ids(more)
    {
      assert more[i] == rows[i];
    }
    if r.event.eventId !in Ids(rows) {
      assert forall i | 0 <= i < |rows| :: rows[i].event.eventId in Ids(rows);
    }
  }

  /**
    Every message of a batch is either about to be produced, already marked, or about to be
    dead-lettered; what is about to be produced repeats no id and is judged valid.
   */
  lemma {:induction false} FreshCoversBatch(
    batch: seq<Message>, views: seq<View>, at: int, keys: set<string>, lookupOk: bool)
    requires |views| == |batch|
    ensures var novel := Fresh(batch, views, at, keys, lookupOk);
            && DistinctIds(novel)
            && (forall k | 0 <= k < |batch| ::
                  || batch[k].payload in Payloads(Dead(batch, views, at))
                  || (batch[k].payload.Json? && batch[k].payload.event.eventId in Ids(novel) + keys))
            && (lookupOk ==> Ids(novel) !! keys)
            && (forall r | r in novel ::
                  exists k | 0 <= k < |batch| :: Judge(batch[k].payload, views[k]).Accepted?
                      && batch[k].payload == Json(r.event))
  {
    var valid := Valid(batch, views, at);
    UniqueKeepsIds(valid);
    UnseenKeepsIds(Unique(valid), if lookupOk then keys else {});
    RoutingIsSound(batch, views, at);
    forall k | 0 <= k < |batch|
      ensures || batch[k].payload in Payloads(Dead(batch, views, at))
              || (batch[k].payload.Json? && batch[k].payload.event.eventId in Ids(valid))
    {
      RoutingIsTotal(batch, views, at, k);
    }
  }

  lemma {:induction false} LandedIsSome<T>(items: seq<T>, landed: seq<nat>)
    ensures forall x | x in Landed(items, landed) :: x in items
  {
    if landed != [] {
      LandedIsSome(items, landed[..|landed| - 1]);
    }
  }
}
